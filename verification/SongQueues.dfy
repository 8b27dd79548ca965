/**
 The singly linked song lists: the play queue and the list of past songs. Each list refines a sequence
 of entries; `spine` is the chain of nodes the pointers describe.
 */
module SongQueues {
  import opened Common

  /** A song, by its place in the database, and where to start it. */
  datatype Entry = Entry(song: nat, position: int)

  class Node {
    var next: Node?
    const entry: Entry

    constructor (entry: Entry, next: Node?)
      ensures this.entry == entry && this.next == next
    {
      this.entry, this.next := entry, next;
    }
  }

  /** The node after position `i` of a chain. */
  ghost function After(spine: seq<Node>, i: nat): Node?
    requires i < |spine|
  {
    if i + 1 < |spine| then spine[i + 1] else null
  }

  ghost predicate Distinct(spine: seq<Node>) {
    forall i, j | 0 <= i < j < |spine| :: spine[i] != spine[j]
  }

  /** The nodes form a chain that ends, without sharing. */
  ghost predicate Chain(spine: seq<Node>)
    reads spine
  {
    && (forall i {:trigger spine[i]} | 0 <= i < |spine| :: spine[i].next == After(spine, i))
    && Distinct(spine)
  }

  ghost function Entries(spine: seq<Node>): (r: seq<Entry>)
    ensures |r| == |spine| && forall i | 0 <= i < |r| :: r[i] == spine[i].entry
  {
    seq(|spine|, i requires 0 <= i < |spine| => spine[i].entry)
  }

  lemma EntriesJoin(a: seq<Node>, b: seq<Node>)
    ensures Entries(a + b) == Entries(a) + Entries(b)
  {
  }

  lemma EntriesOne(n: Node)
    ensures Entries([n]) == [n.entry]
  {
  }

  lemma EntriesSplit(spine: seq<Node>, k: nat)
    requires k < |spine|
    ensures Entries(spine)[..k] == Entries(spine[..k]) && Entries(spine)[k + 1..] == Entries(spine[k + 1..])
    ensures Entries(spine)[k] == spine[k].entry
  {
  }

  lemma OnlyAt(spine: seq<Node>, k: nat)
    requires k < |spine| && Distinct(spine)
    ensures forall i {:trigger spine[i]} | 0 <= i < |spine| && i != k :: spine[i] != spine[k]
  {
  }

  lemma DistinctParts(spine: seq<Node>, k: nat)
    requires k <= |spine| && Distinct(spine)
    ensures Distinct(spine[..k]) && Distinct(spine[k..])
  {
  }

  lemma AfterCons(n: Node, spine: seq<Node>)
    ensures var longer := [n] + spine;
            && After(longer, 0) == (if spine == [] then null else spine[0])
            && forall i {:trigger longer[i]} | 0 < i < |longer| ::
                 longer[i] == spine[i - 1] && After(longer, i) == After(spine, i - 1)
  {
  }

  lemma AfterSuffix(spine: seq<Node>)
    requires spine != []
    ensures var rest := spine[1..];
            && After(spine, 0) == (if rest == [] then null else rest[0])
            && forall i {:trigger rest[i]} | 0 <= i < |rest| ::
                 rest[i] == spine[i + 1] && After(rest, i) == After(spine, i + 1)
  {
    var rest := spine[1..];
    forall i | 0 <= i < |rest| ensures rest[i] == spine[i + 1] && After(rest, i) == After(spine, i + 1) {
      if i + 1 < |rest| { assert rest[i + 1] == spine[i + 2]; }
    }
  }

  lemma AfterPrefix(spine: seq<Node>, n: nat)
    requires 0 < n <= |spine|
    ensures var kept := spine[..n];
            forall i {:trigger kept[i]} | 0 <= i < n ::
              kept[i] == spine[i] && After(kept, i) == if i + 1 < n then After(spine, i) else null
  {
  }

  lemma PrefixOfChain(spine: seq<Node>, n: nat)
    requires 0 < n <= |spine| && Chain(spine)
    ensures var kept := spine[..n];
            && Distinct(kept) && After(kept, n - 1) == null && kept[n - 1] == spine[n - 1]
            && forall i {:trigger kept[i]} | 0 <= i < n - 1 :: kept[i].next == After(kept, i) && kept[i] != spine[n - 1]
  {
    DistinctParts(spine, n);
    OnlyAt(spine, n - 1);
    AfterPrefix(spine, n);
  }

  lemma DistinctJoin(n: Node, spine: seq<Node>)
    requires Distinct(spine) && n !in spine
    ensures Distinct(spine + [n]) && Distinct([n] + spine)
  {
  }

  /** Dropping one node of a chain: who is left, and who then follows whom. */
  lemma WithoutNode(spine: seq<Node>, k: nat)
    requires k < |spine| && Distinct(spine)
    ensures var rest := spine[..k] + spine[k + 1..];
            && Distinct(rest)
            && (forall i {:trigger rest[i]} | 0 <= i < |rest| ::
                  && rest[i] == spine[if i < k then i else i + 1]
                  && After(rest, i) == if i + 1 == k then After(spine, k) else After(spine, if i < k then i else i + 1))
  {
    var rest := spine[..k] + spine[k + 1..];
    forall i, j | 0 <= i < j < |rest| ensures rest[i] != rest[j] {
      assert rest[i] == spine[if i < k then i else i + 1];
      assert rest[j] == spine[if j < k then j else j + 1];
    }
  }

  class SongList {
    var head: Node?
    var tail: Node?
    var size: int
    var wantedSize: int
    ghost var spine: seq<Node>

    /** head, tail, size and the chain all describe the same list. */
    ghost predicate Valid()
      reads this, spine
    {
      && Chain(spine)
      && size == |spine|
      && head == (if spine == [] then null else spine[0])
      && tail == if spine == [] then null else spine[|spine| - 1]
    }

    ghost function Contents(): (r: seq<Entry>)
      reads this
    {
      Entries(spine)
    }

    constructor (wantedSize: int)
      ensures Valid() && Contents() == [] && this.wantedSize == wantedSize && spine == []
    {
      head, tail, size, this.wantedSize := null, null, 0, wantedSize;
      spine := [];
    }

    /** playlist_queue_song: add at the tail. */
    method Append(e: Entry)
      requires Valid()
      modifies this, spine
      ensures Valid() && wantedSize == old(wantedSize)
      ensures |spine| == |old(spine)| + 1 && spine[..|old(spine)|] == old(spine) && fresh(spine[|old(spine)|])
      ensures Contents() == old(Contents()) + [e]
    {
      hide Entries, Distinct;
      var node := new Node(e, null);
      DistinctJoin(node, spine);
      if spine != [] { OnlyAt(spine, |spine| - 1); }
      EntriesJoin(spine, [node]);
      EntriesOne(node);
      if head == null { head := node; }
      if tail != null { tail.next := node; }
      tail := node;
      size := size + 1;
      ghost var longer := spine + [node];
      forall i | 0 <= i < |longer| ensures longer[i].next == After(longer, i) {
        if i < |spine| { assert longer[i] == spine[i]; }
      }
      spine := longer;
    }

    /** get_next_song_info: take from the head; an empty queue gives nothing. */
    method PopFront() returns (e: Option<Entry>)
      requires Valid()
      modifies this
      ensures Valid() && wantedSize == old(wantedSize)
      ensures old(Contents()) == [] ==> e == None && Contents() == []
      ensures old(Contents()) != [] ==> e == Some(old(Contents())[0]) && Contents() == old(Contents())[1..]
    {
      if size <= 0 { return None; }
      hide Distinct, Entries;
      DistinctParts(spine, 1);
      OnlyAt(spine, |spine| - 1);
      EntriesSplit(spine, 0);
      AfterSuffix(spine);
      var first := head;
      if head == tail {
        head, tail := null, null;
      } else {
        head := head.next;
      }
      size := size - 1;
      ghost var rest := spine[1..];
      hide After;
      forall i | 0 <= i < |rest| ensures rest[i].next == After(rest, i) {
        assert rest[i] == spine[i + 1];
      }
      spine := rest;
      e := Some(first.entry);
    }

    /** The walk to a position: the node there and the one before it. */
    method Walk(k: int) returns (node: Node?, last: Node?)
      requires Valid() && 0 <= k <= size
      ensures node == if k < size then spine[k] else null
      ensures last == if k == 0 then null else spine[k - 1]
    {
      node, last := head, null;
      var i := 0;
      while i < k
        invariant 0 <= i <= k && node == (if i < size then spine[i] else null)
        invariant last == if i == 0 then null else spine[i - 1]
      {
        last, node, i := node, node.next, i + 1;
      }
    }

    /** do_remove_playlist_entry and do_delete: unlink the selected entry. */
    method RemoveSelected(selected: int) returns (removed: Option<Entry>)
      requires Valid() && 0 <= selected
      modifies this, spine
      ensures Valid() && wantedSize == old(wantedSize)
      ensures selected >= |old(Contents())| ==> removed == None && Contents() == old(Contents())
      ensures selected < |old(Contents())| ==>
                && removed == Some(old(Contents())[selected])
                && Contents() == old(Contents())[..selected] + old(Contents())[selected + 1..]
    {
      hide Distinct;
      if selected >= size { return None; }
      var node, last := Walk(selected);
      EntriesJoin(spine[..selected], spine[selected + 1..]);
      EntriesSplit(spine, selected);
      removed := Some(node.entry);
      Unlink(selected, node, last);
    }

    method Unlink(k: int, node: Node, last: Node?)
      requires Valid() && 0 <= k < size && node == spine[k] && last == if k == 0 then null else spine[k - 1]
      modifies this, spine
      ensures Valid() && wantedSize == old(wantedSize)
      ensures spine == old(spine)[..k] + old(spine)[k + 1..]
    {
      hide Distinct, Entries;
      WithoutNode(spine, k);
      OnlyAt(spine, k);
      OnlyAt(spine, |spine| - 1);
      OnlyAt(spine, 0);
      if k > 0 { OnlyAt(spine, k - 1); }
      ghost var rest := spine[..k] + spine[k + 1..];
      var next := node.next;
      assert next == After(spine, k);
      if last != null { last.next := next; }
      forall i | 0 <= i < |rest| ensures rest[i].next == After(rest, i) {
        assert spine[if i < k then i else i + 1] == rest[i];
      }
      if node == head { head := next; }
      if node == tail { tail := last; }
      size := size - 1;
      spine := rest;
    }

    /**
     done_with_song_info: put a song at the front and keep the wanted number. When none is wanted the walk
     keeps no last node, the tail becomes null, and the program dies following it.
     */
    method PushPast(e: Entry) returns (crashed: bool)
      requires Valid()
      modifies this, spine
      ensures wantedSize == old(wantedSize)
      ensures crashed <==> wantedSize < 1
      ensures !crashed ==> Valid() && Contents() == Take(wantedSize, [e] + old(Contents()))
      ensures crashed ==> tail == null && head != null && head.entry == e
    {
      PushFront(e);
      crashed := false;
      if size > wantedSize {
        if wantedSize < 1 {
          tail, crashed := null, true;
          return;
        }
        TruncateTo(wantedSize);
      }
    }

    method PushFront(e: Entry)
      requires Valid()
      modifies this
      ensures Valid() && wantedSize == old(wantedSize)
      ensures |spine| == |old(spine)| + 1 && spine[1..] == old(spine) && fresh(spine[0])
      ensures Contents() == [e] + old(Contents())
    {
      hide Entries, Distinct;
      var node := new Node(e, head);
      DistinctJoin(node, spine);
      EntriesOne(node);
      EntriesJoin([node], spine);
      head := node;
      if tail == null { tail := node; }
      size := size + 1;
      AfterCons(node, spine);
      ghost var longer := [node] + spine;
      hide After;
      forall i | 0 <= i < |longer| ensures longer[i].next == After(longer, i) {
        assert longer[i] == if i == 0 then node else spine[i - 1];
      }
      spine := longer;
    }

    method TruncateTo(n: int)
      requires Valid() && 1 <= n < size
      modifies this, spine
      ensures Valid() && wantedSize == old(wantedSize)
      ensures Contents() == old(Contents())[..n]
    {
      hide Entries, Distinct, After;
      PrefixOfChain(spine, n);
      EntriesSplit(spine, n);
      var cur, last := Walk(n);
      assert spine[n - 1] in spine;
      Cut(last, spine[..n]);
      tail, size := last, n;
      spine := spine[..n];
    }

    /** The last node kept becomes the end of the chain. */
    method Cut(last: Node, ghost kept: seq<Node>)
      requires kept != [] && last == kept[|kept| - 1] && After(kept, |kept| - 1) == null
      requires forall i {:trigger kept[i]} | 0 <= i < |kept| - 1 :: kept[i].next == After(kept, i) && kept[i] != last
      modifies last`next
      ensures forall i {:trigger kept[i]} | 0 <= i < |kept| :: kept[i].next == After(kept, i)
    {
      hide After;
      last.next := null;
    }

    /** The manager adds one song only while there are too few. */
    method ManagerAdds(e: Entry) returns (waits: bool)
      requires Valid()
      modifies this, spine
      ensures Valid() && wantedSize == old(wantedSize)
      ensures waits <==> |old(Contents())| >= wantedSize
      ensures Contents() == if waits then old(Contents()) else old(Contents()) + [e]
      ensures |Contents()| <= wantedSize || Contents() == old(Contents())
    {
      waits := size >= wantedSize;
      if !waits { Append(e); }
    }
  }

  function Take(n: int, s: seq<Entry>): seq<Entry>
    requires n >= 0
  {
    if |s| <= n then s else s[..n]
  }
}
