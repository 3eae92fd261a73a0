/** The doubly linked list of the buffer cache (kernel/bio.c): node `n` is the
    list head, nodes `0..n` are the buffers, `next`/`prev` hold the links. */
module Lru {
  ghost predicate Edge(next: seq<nat>, prev: seq<nat>, a: nat, b: nat) {
    a < |next| && b < |prev| && next[a] == b && prev[b] == a
  }

  // The walk from the head through `order` back to the head.
  ghost function Closed(n: nat, order: seq<nat>): (d: seq<nat>) {
    [n] + order + [n]
  }

  // The links spell out exactly `order`, from head.next to head.prev.
  ghost predicate Linked(n: nat, next: seq<nat>, prev: seq<nat>, order: seq<nat>) {
    && |next| == n + 1 && |prev| == n + 1
    && (forall i :: 0 <= i < |order| ==> order[i] < n)
    && (forall i, j :: 0 <= i < j < |order| ==> order[i] != order[j])
    && var d := Closed(n, order);
       forall i :: 0 <= i <= |order| ==> Edge(next, prev, d[i], d[i + 1])
  }

  ghost function Without(order: seq<nat>, k: nat): seq<nat>
    requires k < |order|
  {
    order[..k] + order[k + 1..]
  }

  // `b->next->prev = b->prev; b->prev->next = b->next;`
  lemma UnlinkKeepsRest(n: nat, next: seq<nat>, prev: seq<nat>, order: seq<nat>, k: nat)
    requires Linked(n, next, prev, order) && k < |order|
    ensures var b := order[k];
      && next[b] <= n && prev[b] <= n && next[b] != b
      && Linked(n, next[prev[b] := next[b]], prev[next[b] := prev[b]], Without(order, k))
  {
    var d, d' := Closed(n, order), Closed(n, Without(order, k));
    var b := d[k + 1];
    assert Edge(next, prev, d[k], b) && Edge(next, prev, d[k + 1], d[k + 2]);
    var next', prev' := next[prev[b] := next[b]], prev[next[b] := prev[b]];
    forall i | 0 <= i < |order|
      ensures Edge(next', prev', d'[i], d'[i + 1])
    {
      if i == k {
        assert d'[i] == d[k] && d'[i + 1] == d[k + 2];
      } else {
        var j := if i < k then i else i + 1;
        assert d'[i] == d[j] && d'[i + 1] == d[j + 1];
        assert Edge(next, prev, d[j], d[j + 1]);
      }
    }
  }

  // `b->next = head.next; b->prev = head; head.next->prev = b; head.next = b;`
  lemma PushLinksFront(n: nat, next: seq<nat>, prev: seq<nat>, order: seq<nat>, b: nat)
    requires Linked(n, next, prev, order) && b < n && b !in order
    ensures next[n] <= n
    ensures Linked(n, next[b := next[n]][n := b], prev[b := n][next[n] := b], [b] + order)
  {
    var d, d' := Closed(n, order), Closed(n, [b] + order);
    assert Edge(next, prev, d[0], d[1]);
    var next', prev' := next[b := next[n]][n := b], prev[b := n][next[n] := b];
    forall i | 0 <= i <= |order| + 1
      ensures Edge(next', prev', d'[i], d'[i + 1])
    {
      if i > 1 {
        assert d'[i] == d[i - 1] && d'[i + 1] == d[i];
        assert Edge(next, prev, d[i - 1], d[i - 1 + 1]);
      }
    }
  }
}
