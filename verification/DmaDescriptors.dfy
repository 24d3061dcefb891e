/**
 * The DMA queue as it lies in memory: descriptors linked through their own next fields.
 *
 * Fields of descriptors are looked up by address. The ghost queue says what the list spells; every method
 * is proved to take it where the functions of DmaQueue say.
 */
module DmaDescriptors {
  import opened Prelude
  import opened Alignment
  import opened DmaQueue

  /** struct dma_desc. */
  datatype Desc = Desc(request: Request, status: nat, next: Option<Addr>)

  class Dma {
    const start: Addr
    const end: Addr
    const callbacks: Callbacks
    var desc: map<Addr, Desc>
    var descNext: Addr
    var bufEnd: Addr
    var head: Option<Addr>
    var tail: Option<Addr>
    ghost var q: Queue

    ghost predicate Valid()
      reads this
    {
      && Inv(q, start, end) && descNext == q.descNext && bufEnd == q.bufEnd
      && Ends(head, tail, q.pending) && Spells(desc, q.pending) && Done(desc, q.completed)
    }

    constructor (start: Addr, end: Addr, callbacks: Callbacks)
      requires start <= end
      ensures Valid() && q == Fresh(start, end) && this.start == start && this.end == end && this.callbacks == callbacks
    {
      this.start, this.end, this.callbacks := start, end, callbacks;
      desc, descNext, bufEnd, head, tail := map[], start, end, None, None;
      q := Fresh(start, end);
    }

    method DmaAllocDesc() returns (a: Option<Addr>)
      requires Valid()
      modifies this`descNext, this`q
      ensures (q, a) == AllocDesc(old(q))
      ensures descNext == q.descNext
    {
      var aligned := AlignUp(descNext, DESC_ALIGN);
      if aligned + DESC_SIZE > bufEnd { return None; }
      descNext := aligned + DESC_SIZE;
      q := q.(descNext := descNext);
      return Some(aligned);
    }

    method DmaAllocBuffer(len: nat, align: nat) returns (a: Option<Addr>)
      requires Valid()
      modifies this
      ensures Valid() && (q, a) == AllocBuffer(old(q), len, align)
    {
      AnswerKeeps(q, Allocate(len, align), start, end);
      if len == 0 { return None; }
      var n := if align == 0 then 1 else align;
      if !PowerOfTwo(n) { return None; }
      if bufEnd < len { return None; }
      var a' := AlignDown(bufEnd - len, n);
      if a' < descNext { return None; }
      bufEnd := a';
      q := q.(bufEnd := a', buffers := q.buffers + [Buffer(a', len)]);
      return Some(a');
    }

    method DmaSubmitMemcpy(request: Request) returns (r: int)
      requires Valid()
      modifies this
      ensures Valid() && (q, r) == SubmitMemcpy(old(q), request)
    {
      hide Inv, Ends, Spells, Done;
      AnswerKeeps(q, Submit(request), start, end);
      if request.dst == 0 || request.src == 0 || request.len == 0 { return -1; }
      ghost var was := q;
      var d := DmaAllocDesc();
      if d.None? { return -2; }
      FreshDescriptor(was, d.value, start, end);
      AppendSpells(desc, head, tail, was.pending, was.completed, d.value, request);
      desc := desc[d.value := Desc(request, 1, None)];
      var prevTail := tail;
      if prevTail.Some? {
        desc := desc[prevTail.value := desc[prevTail.value].(next := d)];
      } else {
        head := d;
      }
      tail := d;
      ghost var e := Entry(d.value, request);
      q := q.(pending := q.pending + [e], submitted := q.submitted + [e]);
      return 0;
    }

    /** dma_poll_complete; the copy itself is the subject of Coherency. */
    method DmaPollComplete()
      requires Valid()
      modifies this
      ensures Valid() && q == PollComplete(callbacks, old(q))
      decreases Measure(q), 0, 0
    {
      hide Inv, Ends, Spells, Done;
      HeadOf(head, tail, q.pending);
      while head.Some?
        invariant Valid() && PollComplete(callbacks, q) == PollComplete(callbacks, old(q)) && Measure(q) <= old(Measure(q))
        invariant head.Some? <==> q.pending != []
        decreases Measure(q)
      {
        HeadFirst(head, tail, q.pending);
        FirstSubmitted(q, start, end);
        var d := head.value;
        ghost var e := q.pending[0];
        var cb := FinishPop(d, e);
        if cb.Some? {
          NoteValid(q, Called(cb.value), start, end);
          q := Note(q, Called(cb.value));
          RunCallback(callbacks(cb.value));
        }
        HeadOf(head, tail, q.pending);
      }
    }

    /**
     * The rest of one turn of dma_poll_complete, d being the head read before: the descriptor leaves the list
     * and its status is cleared. If it has been completed meanwhile its next link is null, and so the list ends.
     */
    method FinishPop(d: Addr, ghost e: Entry) returns (cb: Option<nat>)
      requires Valid() && e.desc == d && (e in q.completed || (q.pending != [] && e == q.pending[0]))
      modifies this`desc, this`head, this`tail, this`q
      ensures q == DmaQueue.FinishPop(old(q), e) && cb == e.request.cb
      ensures Ends(head, tail, q.pending) && Spells(desc, q.pending) && Done(desc, q.completed)
      ensures e !in old(q).completed ==> Valid()
    {
      hide Inv, Ends, Spells, Done;
      PendingDistinct(q, start, end);
      FirstOrDone(q, e);
      if e in q.completed {
        DoneAgain(desc, q.completed, e);
      } else {
        CompleteKeeps(q, start, end);
        HeadFirst(head, tail, q.pending);
        PopSpells(desc, head, tail, q.pending, q.completed);
      }
      head := desc[d].next;
      if head.None? { tail := None; }
      desc := desc[d := desc[d].(next := None)];
      desc := desc[d := desc[d].(status := 0)];
      q := DmaQueue.FinishPop(q, e);
      cb := desc[d].request.cb;
    }

    /** The body of a callback: its client calls in order. */
    method RunCallback(calls: seq<Client>)
      requires Valid()
      modifies this
      ensures Valid() && q == RunClients(callbacks, old(q), calls)
      decreases Measure(q), 1, |calls|
    {
      hide Inv, Ends, Spells, Done;
      if calls == [] { return; }
      NoteValid(q, Asked(calls[0]), start, end);
      q := Note(q, Asked(calls[0]));
      match calls[0] {
        case Submit(request) => var r := DmaSubmitMemcpy(request);
        case Allocate(len, align) => var a := DmaAllocBuffer(len, align);
        case Poll => DmaPollComplete();
      }
      RunCallback(calls[1..]);
    }
  }

  // ---- The list ----

  ghost predicate Ends(head: Option<Addr>, tail: Option<Addr>, p: seq<Entry>) {
    && head == (if p == [] then None else Some(p[0].desc))
    && tail == (if p == [] then None else Some(p[|p| - 1].desc))
  }

  /** The pending requests lie in their descriptors, each linked to the next. */
  ghost predicate Spells(desc: map<Addr, Desc>, p: seq<Entry>) {
    forall i: nat :: i < |p| ==> Spelled(desc, p, i)
  }

  ghost predicate Spelled(desc: map<Addr, Desc>, p: seq<Entry>, i: nat)
    requires i < |p|
  {
    p[i].desc in desc && desc[p[i].desc] == Desc(p[i].request, 1, if i + 1 < |p| then Some(p[i + 1].desc) else None)
  }

  /** A completed request has its status cleared and is on no list. */
  ghost predicate Done(desc: map<Addr, Desc>, c: seq<Entry>) {
    forall i :: 0 <= i < |c| ==> c[i].desc in desc && desc[c[i].desc] == Desc(c[i].request, 0, None)
  }

  lemma HeadOf(head: Option<Addr>, tail: Option<Addr>, p: seq<Entry>)
    requires Ends(head, tail, p)
    ensures head.Some? <==> p != []
  {
  }

  lemma HeadFirst(head: Option<Addr>, tail: Option<Addr>, p: seq<Entry>)
    requires Ends(head, tail, p) && p != []
    ensures head == Some(p[0].desc)
  {
  }

  lemma NoteValid(q: Queue, did: Did, start: Addr, end: Addr)
    ensures Inv(Note(q, did), start, end) == Inv(q, start, end)
  {
  }

  lemma FirstSubmitted(q: Queue, start: Addr, end: Addr)
    requires Inv(q, start, end) && q.pending != []
    ensures q.pending[0] !in q.completed
  {
    PendingDistinct(q, start, end);
  }

  lemma FirstOrDone(q: Queue, e: Entry)
    requires Apart(q.pending, q.completed) && (e in q.completed || (q.pending != [] && e == q.pending[0]))
    ensures e in q.completed <==> e !in q.pending
  {
  }

  /** Popping a completed descriptor again changes no descriptor and finds the end of the list. */
  lemma DoneAgain(desc: map<Addr, Desc>, c: seq<Entry>, e: Entry)
    requires Done(desc, c) && e in c
    ensures e.desc in desc && desc[e.desc] == Desc(e.request, 0, None)
    ensures desc[e.desc := desc[e.desc]] == desc && Done(desc, c + [e])
    ensures Ends(None, None, []) && Spells(desc, [])
  {
  }

  /** No two descriptors in use or used before are the same. */
  ghost predicate Apart(p: seq<Entry>, c: seq<Entry>) {
    && (forall i, j :: 0 <= i < j < |p| ==> p[i].desc < p[j].desc)
    && (forall i, j :: 0 <= i < |c| && 0 <= j < |p| ==> c[i].desc < p[j].desc)
  }

  lemma PendingDistinct(q: Queue, start: Addr, end: Addr)
    requires Inv(q, start, end)
    ensures Apart(q.pending, q.completed)
  {
    var n := |q.completed|;
    assert forall i :: 0 <= i < n ==> q.submitted[i] == q.completed[i];
    assert forall i :: 0 <= i < |q.pending| ==> q.submitted[n + i] == q.pending[i];
  }

  /** A newly carved descriptor lies above every earlier one. */
  lemma FreshDescriptor(was: Queue, d: Addr, start: Addr, end: Addr)
    requires Inv(was, start, end) && AllocDesc(was).1 == Some(d)
    ensures Apart(was.pending, was.completed)
    ensures forall i :: 0 <= i < |was.pending| ==> was.pending[i].desc < d
    ensures forall i :: 0 <= i < |was.completed| ==> was.completed[i].desc < d
  {
    PendingDistinct(was, start, end);
    var n := |was.completed|;
    assert forall i :: 0 <= i < n ==> was.submitted[i] == was.completed[i];
    assert forall i :: 0 <= i < |was.pending| ==> was.submitted[n + i] == was.pending[i];
  }

  lemma AppendSpells(desc: map<Addr, Desc>, head: Option<Addr>, tail: Option<Addr>, p: seq<Entry>,
                     c: seq<Entry>, d: Addr, request: Request)
    requires Ends(head, tail, p) && Spells(desc, p) && Done(desc, c) && Apart(p, c)
    requires forall i :: 0 <= i < |p| ==> p[i].desc < d
    requires forall i :: 0 <= i < |c| ==> c[i].desc < d
    ensures tail.Some? ==> tail.value in desc && tail.value != d
    ensures var one := desc[d := Desc(request, 1, None)];
      var two := if tail.Some? then one[tail.value := one[tail.value].(next := Some(d))] else one;
      var r := p + [Entry(d, request)];
      Spells(two, r) && Done(two, c) && Ends(if tail.Some? then head else Some(d), Some(d), r)
  {
    if p != [] { assert Spelled(desc, p, |p| - 1); }
    var one := desc[d := Desc(request, 1, None)];
    var two := if tail.Some? then one[tail.value := one[tail.value].(next := Some(d))] else one;
    var r := p + [Entry(d, request)];
    forall i: nat | i < |r| ensures Spelled(two, r, i) {
      if i < |p| {
        assert Spelled(desc, p, i);
        assert r[i] == p[i] && (i + 1 < |p| ==> r[i + 1] == p[i + 1] && p[i].desc < p[|p| - 1].desc);
      }
    }
    forall i | 0 <= i < |c| ensures two[c[i].desc] == desc[c[i].desc] {
      if p != [] { assert c[i].desc < p[|p| - 1].desc; }
    }
  }

  lemma PopSpells(desc: map<Addr, Desc>, head: Option<Addr>, tail: Option<Addr>, p: seq<Entry>, c: seq<Entry>)
    requires p != [] && Ends(head, tail, p) && Spells(desc, p) && Done(desc, c) && Apart(p, c)
    ensures head.Some? && head.value in desc
    ensures var d := head.value;
      var one := desc[d := desc[d].(next := None)];
      var two := one[d := one[d].(status := 0)];
      && desc[d].request == p[0].request
      && Spells(two, p[1..]) && Done(two, c + [p[0]])
      && Ends(desc[d].next, if desc[d].next.None? then None else tail, p[1..])
  {
    var r, d := p[1..], p[0].desc;
    assert Spelled(desc, p, 0);
    assert forall i :: 0 <= i < |r| ==> r[i] == p[i + 1];
    var one := desc[d := desc[d].(next := None)];
    var two := one[d := one[d].(status := 0)];
    forall i: nat | i < |r| ensures Spelled(two, r, i) {
      assert Spelled(desc, p, i + 1);
      assert p[0].desc < p[i + 1].desc;
    }
    forall i | 0 <= i < |c| ensures two[c[i].desc] == desc[c[i].desc] {
      assert c[i].desc < p[0].desc;
    }
  }
}
