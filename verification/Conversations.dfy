/**
 The latest turns of a conversation: selected newest first, handed over oldest first.

 The query orders by time and then by id, both descending, and takes as many rows as asked
 for; the list is then reversed in place.  Time and id together leave no ties, so the
 descending order read backwards is the ascending one, and the result is the tail of the
 conversation in chronological order.
 */
module Conversations {
  import opened Sorting

  // What orders the messages of a table: time of creation, then id.
  datatype Message = Message(createdAt: int, id: nat, conversation: nat)

  predicate Older(a: Message, b: Message) {
    a.createdAt < b.createdAt
    || (a.createdAt == b.createdAt && (a.id < b.id || (a.id == b.id && a.conversation <= b.conversation)))
  }

  predicate Newer(a: Message, b: Message) {
    Older(b, a)
  }

  lemma OlderIsTotal()
    ensures Preorder(Older) && Antisymmetric(Older) && Preorder(Newer)
  {
  }

  function Of(rows: seq<Message>, conversation: nat): seq<Message> {
    if |rows| == 0 then []
    else Of(rows[..|rows| - 1], conversation) + if rows[|rows| - 1].conversation == conversation then [rows[|rows| - 1]] else []
  }

  function Chronological(rows: seq<Message>, conversation: nat): seq<Message> {
    Sort(Of(rows, conversation), Older)
  }

  /** The selection of the query: descending, limited. */
  function NewestFirst(rows: seq<Message>, conversation: nat, limit: nat): seq<Message> {
    var newest := Sort(Of(rows, conversation), Newer);
    if limit < |newest| then newest[..limit] else newest
  }

  predicate Mirrors(a: seq<Message>, b: seq<Message>) {
    |a| == |b| && forall i :: 0 <= i < |a| ==> a[i] == b[|b| - 1 - i]
  }

  method Reverse(a: array<Message>)
    modifies a
    ensures Mirrors(a[..], old(a[..]))
  {
    var low, high := 0, a.Length;
    while high - low > 1
      invariant 0 <= low <= high <= a.Length && low + high == a.Length
      invariant forall k :: 0 <= k < low || high <= k < a.Length ==> a[k] == old(a[..])[a.Length - 1 - k]
      invariant forall k :: low <= k < high ==> a[k] == old(a[..])[k]
      decreases high - low
    {
      high := high - 1;
      a[low], a[high] := a[high], a[low];
      low := low + 1;
    }
  }

  method ListMessages(rows: seq<Message>, conversation: nat, limit: nat) returns (latest: seq<Message>)
    ensures var all := Chronological(rows, conversation);
            latest == if limit < |all| then all[|all| - limit..] else all
  {
    var selected := NewestFirst(rows, conversation, limit);
    if |selected| == 0 {
      ReversedSelectionIsTheTail(rows, conversation, limit, []);
      return [];
    }
    var list := new Message[|selected|](i requires 0 <= i < |selected| => selected[i]);
    assert list[..] == selected;
    Reverse(list);
    latest := list[..];
    ReversedSelectionIsTheTail(rows, conversation, limit, latest);
  }

  lemma {:induction false} MirrorKeepsElements(a: seq<Message>, b: seq<Message>)
    requires Mirrors(a, b)
    ensures multiset(a) == multiset(b)
  {
    if |a| > 0 {
      var front := b[..|b| - 1];
      assert b == front + [a[0]];
      assert a == [a[0]] + a[1..];
      MirrorKeepsElements(a[1..], front);
    }
  }

  function Mirrored(s: seq<Message>): (m: seq<Message>)
    ensures Mirrors(m, s)
  {
    if |s| == 0 then [] else [s[|s| - 1]] + Mirrored(s[..|s| - 1])
  }

  /** Descending order read backwards is the chronological order. */
  lemma NewestMirrorsChronological(rows: seq<Message>, conversation: nat)
    ensures Mirrors(Chronological(rows, conversation), Sort(Of(rows, conversation), Newer))
  {
    var of := Of(rows, conversation);
    var newest, oldest := Sort(of, Newer), Sort(of, Older);
    OlderIsTotal();
    SortIsSorted(of, Newer);
    SortIsSorted(of, Older);
    var mirrored := Mirrored(newest);
    MirrorKeepsElements(mirrored, newest);
    forall i, j | 0 <= i < j < |mirrored| ensures Older(mirrored[i], mirrored[j]) {
      assert Newer(newest[|newest| - 1 - j], newest[|newest| - 1 - i]);
    }
    SortedIsUnique(mirrored, oldest, Older);
  }

  predicate NoLater(a: Message, b: Message) {
    a.createdAt < b.createdAt || (a.createdAt == b.createdAt && a.id <= b.id)
  }

  predicate Ascending(s: seq<Message>) {
    forall i, j :: 0 <= i < j < |s| ==> NoLater(s[i], s[j])
  }

  lemma SortedAscends(all: seq<Message>)
    requires Sorted(all, Older)
    ensures Ascending(all)
  {
    forall i, j | 0 <= i < j < |all| ensures NoLater(all[i], all[j]) {
      assert Older(all[i], all[j]);
    }
  }

  lemma NotInTail(front: seq<Message>, tail: seq<Message>, m: Message)
    requires Ascending(front + tail) && m in front
    ensures forall i :: 0 <= i < |tail| ==> NoLater(m, tail[i])
  {
    var all := front + tail;
    var k :| 0 <= k < |front| && front[k] == m;
    forall i | 0 <= i < |tail| ensures NoLater(m, tail[i]) {
      assert NoLater(all[k], all[|front| + i]);
    }
  }

  lemma TailAscends(front: seq<Message>, tail: seq<Message>)
    requires Ascending(front + tail)
    ensures Ascending(tail)
  {
    var all := front + tail;
    forall i, j | 0 <= i < j < |tail| ensures NoLater(tail[i], tail[j]) {
      assert NoLater(all[|front| + i], all[|front| + j]);
    }
  }

  /**
   The tail holds messages of the conversation only, the oldest first; one is left out only when so
   many no older ones were taken.
   */
  lemma TailIsTheLatest(rows: seq<Message>, conversation: nat, limit: nat, m: Message)
    ensures var all := Chronological(rows, conversation);
            var latest := if limit < |all| then all[|all| - limit..] else all;
            && |latest| <= limit
            && (m in latest ==> m in rows && m.conversation == conversation)
            && Ascending(latest)
            && (m in rows && m.conversation == conversation && m !in latest ==>
                  |latest| == limit && forall i :: 0 <= i < |latest| ==> NoLater(m, latest[i]))
  {
    var all := Chronological(rows, conversation);
    var skipped := if limit < |all| then |all| - limit else 0;
    OlderIsTotal();
    OfAre(rows, conversation);
    SortIsSorted(Of(rows, conversation), Older);
    SortMembers(Of(rows, conversation), Older, m);
    SortedAscends(all);
    assert all == all[..skipped] + all[skipped..];
    TailAscends(all[..skipped], all[skipped..]);
    if m in all[..skipped] {
      NotInTail(all[..skipped], all[skipped..], m);
    }
  }

  lemma {:induction false} OfAre(rows: seq<Message>, conversation: nat)
    ensures forall m :: m in Of(rows, conversation) <==> m in rows && m.conversation == conversation
  {
    if |rows| > 0 {
      OfAre(rows[..|rows| - 1], conversation);
    }
  }

  /** The first of a list read backwards are its last. */
  lemma MirroredPrefixIsTheTail(all: seq<Message>, newest: seq<Message>, limit: nat, latest: seq<Message>)
    requires Mirrors(all, newest) && Mirrors(latest, if limit < |newest| then newest[..limit] else newest)
    ensures latest == if limit < |all| then all[|all| - limit..] else all
  {
    var skipped := if limit < |all| then |all| - limit else 0;
    assert |latest| == |all| - skipped;
    forall i | 0 <= i < |latest| ensures latest[i] == all[skipped + i] {
      assert all[skipped + i] == newest[|newest| - 1 - (skipped + i)];
    }
    assert latest == all[skipped..];
  }

  /** Selecting the newest and reversing gives the last turns of the conversation, in order. */
  lemma ReversedSelectionIsTheTail(rows: seq<Message>, conversation: nat, limit: nat, latest: seq<Message>)
    requires Mirrors(latest, NewestFirst(rows, conversation, limit))
    ensures var all := Chronological(rows, conversation);
            latest == if limit < |all| then all[|all| - limit..] else all
  {
    NewestMirrorsChronological(rows, conversation);
    MirroredPrefixIsTheTail(Chronological(rows, conversation), Sort(Of(rows, conversation), Newer), limit, latest);
  }
}
