/**
 * The DMA queue: descriptors carved upwards and buffers downwards out of one window, a FIFO of pending
 * requests, and a poll whose callbacks may submit, allocate and poll again.
 *
 * A callback is a number; what it does is a list of client calls, which may name the same callback again.
 */
module DmaQueue {
  import opened Prelude
  import opened Alignment

  type Addr = nat

  const DESC_SIZE: nat := 56   // src, dst, len, status, cb, user, next
  const DESC_ALIGN: nat := 8

  datatype Request = Request(dst: Addr, src: Addr, len: nat, cb: Option<nat>)

  /** A request and the descriptor that holds it. */
  datatype Entry = Entry(desc: Addr, request: Request)

  datatype Buffer = Buffer(start: Addr, len: nat)

  datatype Client = Submit(request: Request) | Allocate(len: nat, align: nat) | Poll

  /** What each callback does when it is called. */
  type Callbacks = nat -> seq<Client>

  /** What happens in a poll: a request is finished, a callback entered, a client call made. */
  datatype Did = Finished(entry: Entry) | Called(cb: nat) | Asked(call: Client)

  /** The queue globals and, beside them, what has been submitted, completed, handed out and done so far. */
  datatype Queue = Queue(
    descNext: Addr, bufEnd: Addr, pending: seq<Entry>,
    submitted: seq<Entry>, completed: seq<Entry>, buffers: seq<Buffer>, log: seq<Did>)

  // ---- Allocation ----

  /** dma_alloc_desc up to its check: the next descriptor, from the g_dma_desc_next it has read. */
  function ReadNext(q: Queue): Addr { AlignUp(q.descNext, DESC_ALIGN) }

  /** The rest of dma_alloc_desc: check, and write g_dma_desc_next back. */
  function WriteNext(q: Queue, aligned: Addr): (Queue, Option<Addr>) {
    if aligned + DESC_SIZE > q.bufEnd then (q, None)
    else (q.(descNext := aligned + DESC_SIZE), Some(aligned))
  }

  /** dma_alloc_desc. */
  function AllocDesc(q: Queue): (Queue, Option<Addr>) { WriteNext(q, ReadNext(q)) }

  /** dma_alloc_buffer. */
  function AllocBuffer(q: Queue, len: nat, align: nat): (Queue, Option<Addr>) { AllocFrom(q, q.bufEnd, len, align) }

  /** dma_alloc_buffer continued with the g_dma_buf_end it has read. */
  function AllocFrom(q: Queue, end: Addr, len: nat, align: nat): (Queue, Option<Addr>) {
    var n := if align == 0 then 1 else align;
    if len == 0 || !PowerOfTwo(n) || end < len then (q, None)
    else
      var start := AlignDown(end - len, n);
      if start < q.descNext then (q, None)
      else (q.(bufEnd := start, buffers := q.buffers + [Buffer(start, len)]), Some(start))
  }

  // ---- Submit and poll ----

  /** dma_submit_memcpy. */
  function SubmitMemcpy(q: Queue, request: Request): (Queue, int) { SubmitFrom(q, ReadNext(q), request) }

  /** dma_submit_memcpy continued with the descriptor address already worked out. */
  function SubmitFrom(q: Queue, aligned: Addr, request: Request): (Queue, int) {
    if request.dst == 0 || request.src == 0 || request.len == 0 then (q, -1)
    else
      match WriteNext(q, aligned)
      case (_, None) => (q, -2)
      case (r, Some(desc)) =>
        var e := Entry(desc, request);
        (r.(pending := r.pending + [e], submitted := r.submitted + [e]), 0)
  }

  /** Descriptors still to be carved, plus those pending. */
  function Measure(q: Queue): nat {
    (if q.bufEnd >= q.descNext then (q.bufEnd - q.descNext) / DESC_SIZE else 0) + |q.pending|
  }

  lemma SubmitMeasure(q: Queue, request: Request)
    ensures Measure(SubmitMemcpy(q, request).0) <= Measure(q)
  {
  }

  lemma AllocateMeasure(q: Queue, len: nat, align: nat)
    ensures Measure(AllocBuffer(q, len, align).0) <= Measure(q)
  {
  }

  /** The head leaves the queue, its copy is made and its status cleared. */
  function Complete(q: Queue): (r: Queue)
    requires q.pending != []
    ensures Measure(r) == Measure(q) - 1
  {
    FinishPop(q, q.pending[0])
  }

  /**
   * The pop of dma_poll_complete continued with the head e it has read. If e has been completed meanwhile its
   * next link is null, and the list ends there.
   */
  function FinishPop(q: Queue, e: Entry): Queue {
    q.(pending := if e in q.pending then q.pending[1..] else [], completed := q.completed + [e],
       log := q.log + [Finished(e)])
  }

  function Note(q: Queue, did: Did): (r: Queue)
    ensures Measure(r) == Measure(q)
  {
    q.(log := q.log + [did])
  }

  /** dma_poll_complete: until the queue is empty, complete the head and run its callback. */
  function PollComplete(callbacks: Callbacks, q: Queue): (r: Queue)
    ensures r.pending == [] && Measure(r) <= Measure(q)
    decreases Measure(q), 0, 0
  {
    if q.pending == [] then q
    else
      var cb := q.pending[0].request.cb;
      var r := Complete(q);
      PollComplete(callbacks,
        if cb.Some? then RunClients(callbacks, Note(r, Called(cb.value)), callbacks(cb.value)) else r)
  }

  function RunClients(callbacks: Callbacks, q: Queue, calls: seq<Client>): (r: Queue)
    ensures Measure(r) <= Measure(q)
    decreases Measure(q), 1, |calls|
  {
    if calls == [] then q
    else RunClients(callbacks, Ask(callbacks, Note(q, Asked(calls[0])), calls[0]), calls[1..])
  }

  function Ask(callbacks: Callbacks, q: Queue, call: Client): (r: Queue)
    ensures Measure(r) <= Measure(q)
    decreases Measure(q), 1, 0
  {
    if call.Poll? then PollComplete(callbacks, q) else Answer(q, call)
  }

  /** A call other than a poll. */
  function Answer(q: Queue, call: Client): (r: Queue)
    requires !call.Poll?
    ensures Measure(r) <= Measure(q)
  {
    match call
    case Submit(request) => (SubmitMeasure(q, request); SubmitMemcpy(q, request).0)
    case Allocate(len, align) => (AllocateMeasure(q, len, align); AllocBuffer(q, len, align).0)
  }

  // ---- Invariant ----

  /** Descriptors in increasing order without overlap, aligned, inside [start, descNext). */
  ghost predicate Descriptors(submitted: seq<Entry>, start: Addr, descNext: Addr) {
    && (forall i :: 0 <= i < |submitted| ==>
          start <= submitted[i].desc && submitted[i].desc % DESC_ALIGN == 0 && submitted[i].desc + DESC_SIZE <= descNext)
    && (forall i, j :: 0 <= i < j < |submitted| ==> submitted[i].desc + DESC_SIZE <= submitted[j].desc)
  }

  /** Buffers in decreasing order without overlap inside [bufEnd, end). */
  ghost predicate Buffers(buffers: seq<Buffer>, bufEnd: Addr, end: Addr) {
    && (forall i :: 0 <= i < |buffers| ==> bufEnd <= buffers[i].start && buffers[i].start + buffers[i].len <= end)
    && (forall i, j :: 0 <= i < j < |buffers| ==> buffers[j].start + buffers[j].len <= buffers[i].start)
  }

  /** Each request is completed or pending, in order; pending descriptors and buffers are apart, inside [start, end). */
  ghost predicate Live(q: Queue, start: Addr, end: Addr) {
    && q.submitted == q.completed + q.pending
    && start <= q.descNext <= q.bufEnd <= end
    && Descriptors(q.pending, start, q.descNext)
    && Buffers(q.buffers, q.bufEnd, end)
  }

  /** So are the descriptors of completed requests. */
  ghost predicate Inv(q: Queue, start: Addr, end: Addr) {
    Live(q, start, end) && Descriptors(q.submitted, start, q.descNext)
  }

  function Fresh(start: Addr, end: Addr): Queue { Queue(start, end, [], [], [], [], []) }

  /** What has been submitted, completed and handed out only grows, and anew only from what was free. */
  ghost predicate Extends(q: Queue, r: Queue) {
    && q.submitted <= r.submitted && q.completed <= r.completed && q.buffers <= r.buffers
    && (forall i :: |q.submitted| <= i < |r.submitted| ==> r.submitted[i].desc >= q.descNext)
    && q.descNext <= r.descNext && (r.descNext > q.descNext ==> |r.submitted| > |q.submitted|)
    && (if r.buffers == q.buffers then r.bufEnd == q.bufEnd
        else r.bufEnd < q.bufEnd && r.buffers[|r.buffers| - 1].start == r.bufEnd)
  }

  lemma AnswerLive(q: Queue, call: Client, start: Addr, end: Addr)
    requires Live(q, start, end) && !call.Poll?
    ensures Live(Answer(q, call), start, end) && Extends(q, Answer(q, call))
  {
    match call
    case Submit(request) => SubmitLive(q, request, start, end);
    case Allocate(len, align) => AllocateLive(q, len, align, start, end);
    hide Live, Extends;
  }

  lemma SubmitLive(q: Queue, request: Request, start: Addr, end: Addr)
    requires Live(q, start, end)
    ensures var r := SubmitMemcpy(q, request).0; Live(r, start, end) && Extends(q, r)
  {
    hide Buffers;
    var r := SubmitMemcpy(q, request).0;
    assert r.submitted == r.completed + r.pending;
  }

  lemma AllocateLive(q: Queue, len: nat, align: nat, start: Addr, end: Addr)
    requires Live(q, start, end)
    ensures var r := AllocBuffer(q, len, align).0; Live(r, start, end) && Extends(q, r)
  {
    hide Descriptors;
  }

  lemma AnswerKeeps(q: Queue, call: Client, start: Addr, end: Addr)
    requires Inv(q, start, end) && !call.Poll?
    ensures Inv(Answer(q, call), start, end) && Extends(q, Answer(q, call))
  {
    AnswerLive(q, call, start, end);
    hide Live, Extends;
  }

  lemma CompleteLive(q: Queue, start: Addr, end: Addr)
    requires Live(q, start, end) && q.pending != []
    ensures Live(Complete(q), start, end) && Extends(q, Complete(q))
    ensures Complete(q).completed[|q.completed|] == q.pending[0] == q.submitted[|q.completed|]
  {
    var r := Complete(q);
    assert r.completed + r.pending == q.completed + q.pending;
  }

  lemma CompleteKeeps(q: Queue, start: Addr, end: Addr)
    requires Inv(q, start, end) && q.pending != []
    ensures Inv(Complete(q), start, end) && Extends(q, Complete(q))
  {
    CompleteLive(q, start, end);
    hide Live, Extends;
  }

  /** From q the calls lead to r: nothing is lost, and descriptors of completed requests stay apart if they were. */
  ghost predicate Kept(q: Queue, r: Queue, start: Addr, end: Addr) {
    Live(r, start, end) && Extends(q, r) && (Inv(q, start, end) ==> Inv(r, start, end))
  }

  lemma KeptTwice(q: Queue, r: Queue, u: Queue, start: Addr, end: Addr)
    requires Kept(q, r, start, end) && Kept(r, u, start, end)
    ensures Kept(q, u, start, end)
  {
    hide Live, Inv;
  }

  lemma KeptOnce(q: Queue, call: Client, start: Addr, end: Addr)
    requires Live(q, start, end)
    ensures !call.Poll? ==> Kept(q, Answer(q, call), start, end)
    ensures q.pending != [] ==> Kept(q, Complete(q), start, end)
    ensures Kept(q, q, start, end)
  {
    hide Extends, Descriptors;
    if !call.Poll? {
      AnswerLive(q, call, start, end);
      if Inv(q, start, end) { AnswerKeeps(q, call, start, end); }
    }
    if q.pending != [] {
      CompleteLive(q, start, end);
      if Inv(q, start, end) { CompleteKeeps(q, start, end); }
    }
    ExtendsItself(q);
  }

  lemma ExtendsItself(q: Queue)
    ensures Extends(q, q)
  {
  }

  lemma {:induction false} PollLive(callbacks: Callbacks, q: Queue, start: Addr, end: Addr)
    requires Live(q, start, end)
    ensures Kept(q, PollComplete(callbacks, q), start, end)
    decreases Measure(q), 0, 0
  {
    hide Live, Kept, Complete, Note;
    KeptOnce(q, Poll, start, end);
    if q.pending != [] {
      var cb, r := q.pending[0].request.cb, Complete(q);
      KeptLive(q, r, start, end);
      var after := r;
      if cb.Some? {
        var n := Note(r, Called(cb.value));
        NoteKept(r, Called(cb.value), start, end);
        KeptLive(r, n, start, end);
        after := RunClients(callbacks, n, callbacks(cb.value));
        ClientsLive(callbacks, n, callbacks(cb.value), start, end);
        KeptLive(n, after, start, end);
        KeptTwice(q, r, n, start, end);
        KeptTwice(q, n, after, start, end);
      }
      PollLive(callbacks, after, start, end);
      KeptTwice(q, after, PollComplete(callbacks, after), start, end);
    }
  }

  lemma NoteKept(q: Queue, did: Did, start: Addr, end: Addr)
    requires Live(q, start, end)
    ensures Kept(q, Note(q, did), start, end)
  {
  }

  lemma KeptLive(q: Queue, r: Queue, start: Addr, end: Addr)
    requires Kept(q, r, start, end)
    ensures Live(r, start, end)
  {
  }

  lemma {:induction false} ClientsLive(callbacks: Callbacks, q: Queue, calls: seq<Client>, start: Addr, end: Addr)
    requires Live(q, start, end)
    ensures Kept(q, RunClients(callbacks, q, calls), start, end)
    decreases Measure(q), 1, |calls|
  {
    hide Live, Kept, Note;
    if calls == [] {
      KeptOnce(q, Poll, start, end);
    } else {
      var n := Note(q, Asked(calls[0]));
      NoteKept(q, Asked(calls[0]), start, end);
      KeptLive(q, n, start, end);
      var r := Ask(callbacks, n, calls[0]);
      if calls[0].Poll? { PollLive(callbacks, n, start, end); } else { KeptOnce(n, calls[0], start, end); }
      KeptLive(n, r, start, end);
      KeptTwice(q, n, r, start, end);
      ClientsLive(callbacks, r, calls[1..], start, end);
      KeptTwice(q, r, RunClients(callbacks, r, calls[1..]), start, end);
    }
  }

  /** A poll completes every request pending or submitted meanwhile, once each, in the order of submission. */
  lemma PollKeeps(callbacks: Callbacks, q: Queue, start: Addr, end: Addr)
    requires Inv(q, start, end)
    ensures var r := PollComplete(callbacks, q);
      Inv(r, start, end) && Extends(q, r) && r.completed == r.submitted
  {
    PollLive(callbacks, q, start, end);
    hide Extends, Descriptors;
    var r := PollComplete(callbacks, q);
    assert r.completed + [] == r.completed;
  }

  lemma ClientsKeep(callbacks: Callbacks, q: Queue, calls: seq<Client>, start: Addr, end: Addr)
    requires Inv(q, start, end)
    ensures var r := RunClients(callbacks, q, calls); Inv(r, start, end) && Extends(q, r)
  {
    ClientsLive(callbacks, q, calls, start, end);
    hide Extends, Descriptors;
  }

  /** Whatever clients and callbacks do: completion follows submission order, once per request, and nothing overlaps. */
  lemma FifoExactlyOnce(callbacks: Callbacks, calls: seq<Client>, start: Addr, end: Addr)
    requires start <= end
    ensures var r := RunClients(callbacks, Fresh(start, end), calls);
      && r.completed <= r.submitted
      && (forall i, j :: 0 <= i < j < |r.submitted| ==> r.submitted[i].desc + DESC_SIZE <= r.submitted[j].desc)
      && (forall i, k :: 0 <= i < |r.submitted| && 0 <= k < |r.buffers| ==>
            r.submitted[i].desc + DESC_SIZE <= r.buffers[k].start)
      && (forall i, j :: 0 <= i < j < |r.buffers| ==> r.buffers[j].start + r.buffers[j].len <= r.buffers[i].start)
      && PollComplete(callbacks, r).completed == PollComplete(callbacks, r).submitted
  {
    ClientsKeep(callbacks, Fresh(start, end), calls, start, end);
    PollKeeps(callbacks, RunClients(callbacks, Fresh(start, end), calls), start, end);
  }

  /** A buffer is granted exactly when some aligned range of the length fits, and then the highest. */
  lemma BufferGranted(q: Queue, len: nat, align: nat, start: Addr, end: Addr)
    requires Inv(q, start, end)
    ensures var (r, a) := AllocBuffer(q, len, align);
      var n := if align == 0 then 1 else align;
      && (a.Some? <==> len > 0 && PowerOfTwo(n) && exists x: nat :: BufferFits(q, len, n, x))
      && (a.Some? ==>
            && BufferFits(q, len, n, a.value) && (forall x: nat :: BufferFits(q, len, n, x) ==> x <= a.value)
            && r == q.(bufEnd := a.value, buffers := q.buffers + [Buffer(a.value, len)]))
      && (a.None? ==> r == q)
  {
    var n := if align == 0 then 1 else align;
    if len > 0 && PowerOfTwo(n) {
      forall x: nat | BufferFits(q, len, n, x) ensures q.bufEnd >= len && x <= AlignDown(q.bufEnd - len, n) {
        HighestMultiple(x, q.bufEnd - len, n);
      }
      if q.bufEnd >= len && AlignDown(q.bufEnd - len, n) >= q.descNext {
        assert BufferFits(q, len, n, AlignDown(q.bufEnd - len, n));
      }
    }
  }

  predicate BufferFits(q: Queue, len: nat, n: nat, x: nat)
    requires n > 0
  {
    q.descNext <= x && x % n == 0 && x + len <= q.bufEnd
  }

  predicate DescFits(q: Queue, x: nat) {
    q.descNext <= x && x % DESC_ALIGN == 0 && x + DESC_SIZE <= q.bufEnd
  }

  /** A submit is refused for a null or empty argument, or else if no descriptor fits; or it queues that very request. */
  lemma SubmitExact(q: Queue, request: Request)
    ensures var (r, code) := SubmitMemcpy(q, request);
      var proper := request.dst != 0 && request.src != 0 && request.len != 0;
      && (code == -1 <==> !proper) && (code == -2 <==> proper && !exists x: nat :: DescFits(q, x))
      && (code != 0 ==> (code == -1 || code == -2) && r == q)
      && (code == 0 ==>
            var e := Entry(ReadNext(q), request);
            && DescFits(q, e.desc) && (forall x: nat :: DescFits(q, x) ==> e.desc <= x)
            && r == q.(descNext := e.desc + DESC_SIZE, pending := q.pending + [e], submitted := q.submitted + [e]))
  {
    forall x: nat | DescFits(q, x) ensures ReadNext(q) <= x { NextAligned(q.descNext, x); }
    if ReadNext(q) + DESC_SIZE <= q.bufEnd { assert DescFits(q, ReadNext(q)); }
  }

  // ---- The log ----

  function Finishes(log: seq<Did>): seq<Entry> {
    if log == [] then [] else (if log[0].Finished? then [log[0].entry] else []) + Finishes(log[1..])
  }

  function Entered(log: seq<Did>): seq<nat> {
    if log == [] then [] else (if log[0].Called? then [log[0].cb] else []) + Entered(log[1..])
  }

  ghost function AskedIn(log: seq<Did>): multiset<Client> {
    if log == [] then multiset{} else (if log[0].Asked? then multiset{log[0].call} else multiset{}) + AskedIn(log[1..])
  }

  /** The callbacks of requests, in order. */
  function CallbacksOf(c: seq<Entry>): seq<nat> {
    if c == [] then [] else (if c[0].request.cb.Some? then [c[0].request.cb.value] else []) + CallbacksOf(c[1..])
  }

  /** The calls in the bodies of callbacks. */
  ghost function Bodies(callbacks: Callbacks, called: seq<nat>): multiset<Client> {
    if called == [] then multiset{} else multiset(callbacks(called[0])) + Bodies(callbacks, called[1..])
  }

  /** A callback is entered at once after its request is finished, only then, and starts with its first call. */
  ghost predicate Prompt(callbacks: Callbacks, log: seq<Did>) {
    && (forall i :: 0 <= i < |log| && log[i].Finished? && log[i].entry.request.cb.Some? ==>
          i + 1 < |log| && log[i + 1] == Called(log[i].entry.request.cb.value))
    && (forall i :: 0 <= i < |log| && log[i].Called? ==>
          i > 0 && log[i - 1].Finished? && log[i - 1].entry.request.cb == Some(log[i].cb))
    && (forall i :: 0 <= i < |log| && log[i].Called? && callbacks(log[i].cb) != [] ==>
          i + 1 < |log| && log[i + 1] == Asked(callbacks(log[i].cb)[0]))
  }

  /** A stretch of the log with the calls `own`, and otherwise those of the callbacks entered in it. */
  ghost predicate Stretch(callbacks: Callbacks, log: seq<Did>, own: multiset<Client>) {
    && Prompt(callbacks, log) && Entered(log) == CallbacksOf(Finishes(log))
    && AskedIn(log) == own + Bodies(callbacks, Entered(log))
  }

  lemma LogConcat(a: seq<Did>, b: seq<Did>)
    ensures Finishes(a + b) == Finishes(a) + Finishes(b) && Entered(a + b) == Entered(a) + Entered(b)
    ensures AskedIn(a + b) == AskedIn(a) + AskedIn(b)
  {
    FinishesConcat(a, b);
    EnteredConcat(a, b);
    AskedConcat(a, b);
  }

  lemma {:induction false} FinishesConcat(a: seq<Did>, b: seq<Did>)
    ensures Finishes(a + b) == Finishes(a) + Finishes(b)
    decreases |a|
  {
    if a == [] {
      assert a + b == b;
    } else {
      assert (a + b)[0] == a[0] && (a + b)[1..] == a[1..] + b;
      FinishesConcat(a[1..], b);
    }
  }

  lemma {:induction false} EnteredConcat(a: seq<Did>, b: seq<Did>)
    ensures Entered(a + b) == Entered(a) + Entered(b)
    decreases |a|
  {
    if a == [] {
      assert a + b == b;
    } else {
      assert (a + b)[0] == a[0] && (a + b)[1..] == a[1..] + b;
      EnteredConcat(a[1..], b);
    }
  }

  lemma {:induction false} AskedConcat(a: seq<Did>, b: seq<Did>)
    ensures AskedIn(a + b) == AskedIn(a) + AskedIn(b)
    decreases |a|
  {
    if a == [] {
      assert a + b == b;
    } else {
      assert (a + b)[0] == a[0] && (a + b)[1..] == a[1..] + b;
      AskedConcat(a[1..], b);
    }
  }

  lemma {:induction false} CallbacksConcat(a: seq<Entry>, b: seq<Entry>)
    ensures CallbacksOf(a + b) == CallbacksOf(a) + CallbacksOf(b)
    decreases |a|
  {
    if a == [] {
      assert a + b == b;
    } else {
      assert (a + b)[0] == a[0] && (a + b)[1..] == a[1..] + b;
      CallbacksConcat(a[1..], b);
      Associates(if a[0].request.cb.Some? then [a[0].request.cb.value] else [], CallbacksOf(a[1..]), CallbacksOf(b));
    }
  }

  lemma {:induction false} BodiesConcat(callbacks: Callbacks, a: seq<nat>, b: seq<nat>)
    ensures Bodies(callbacks, a + b) == Bodies(callbacks, a) + Bodies(callbacks, b)
    decreases |a|
  {
    if a == [] {
      assert a + b == b;
    } else {
      assert (a + b)[0] == a[0] && (a + b)[1..] == a[1..] + b;
      BodiesConcat(callbacks, a[1..], b);
    }
  }

  lemma PromptConcat(callbacks: Callbacks, a: seq<Did>, b: seq<Did>)
    requires Prompt(callbacks, a) && Prompt(callbacks, b)
    ensures Prompt(callbacks, a + b)
  {
    var c := a + b;
    assert forall i :: 0 <= i < |c| ==> c[i] == if i < |a| then a[i] else b[i - |a|];
  }

  lemma StretchConcat(callbacks: Callbacks, a: seq<Did>, p: multiset<Client>, b: seq<Did>, q: multiset<Client>)
    requires Stretch(callbacks, a, p) && Stretch(callbacks, b, q)
    ensures Stretch(callbacks, a + b, p + q)
  {
    PromptConcat(callbacks, a, b);
    LogConcat(a, b);
    CallbacksConcat(Finishes(a), Finishes(b));
    BodiesConcat(callbacks, Entered(a), Entered(b));
    hide Prompt, Finishes, Entered, AskedIn, CallbacksOf, Bodies;
  }

  /** One call, and what it leads to. */
  lemma StretchAsked(callbacks: Callbacks, call: Client)
    ensures Stretch(callbacks, [Asked(call)], multiset{call}) && Stretch(callbacks, [], multiset{})
  {
    assert [Asked(call)][1..] == [];
  }

  /** A request finished and its callback, which takes the stretch `body`. */
  lemma StretchFinished(callbacks: Callbacks, e: Entry, body: seq<Did>)
    requires e.request.cb.Some? ==> Stretch(callbacks, body, multiset(callbacks(e.request.cb.value)))
    requires e.request.cb.Some? && callbacks(e.request.cb.value) != [] ==>
      body != [] && body[0] == Asked(callbacks(e.request.cb.value)[0])
    requires e.request.cb.None? ==> body == []
    ensures Stretch(callbacks, Head(e) + body, multiset{}) && Finishes(Head(e) + body) == [e] + Finishes(body)
  {
    HeadLog(e);
    LogConcat(Head(e), body);
    CallbacksConcat([e], Finishes(body));
    if e.request.cb.Some? {
      OneBody(callbacks, e.request.cb.value, Entered(body));
    } else {
      NothingLogged(callbacks);
    }
    PromptHead(callbacks, e, body);
    hide Finishes, Entered, AskedIn, CallbacksOf, Bodies, Prompt, Head;
  }

  /** A completion with the entry of its callback. */
  function Head(e: Entry): seq<Did> {
    [Finished(e)] + if e.request.cb.Some? then [Called(e.request.cb.value)] else []
  }

  lemma NothingLogged(callbacks: Callbacks)
    ensures Finishes([]) == [] && Entered([]) == [] && AskedIn([]) == multiset{} && Bodies(callbacks, []) == multiset{}
    ensures CallbacksOf([]) == []
  {
  }

  lemma OneBody(callbacks: Callbacks, cb: nat, rest: seq<nat>)
    ensures Bodies(callbacks, [cb] + rest) == multiset(callbacks(cb)) + Bodies(callbacks, rest)
  {
    assert ([cb] + rest)[1..] == rest;
  }

  lemma PromptHead(callbacks: Callbacks, e: Entry, body: seq<Did>)
    requires e.request.cb.Some? ==> Prompt(callbacks, body)
    requires e.request.cb.Some? && callbacks(e.request.cb.value) != [] ==>
      body != [] && body[0] == Asked(callbacks(e.request.cb.value)[0])
    requires e.request.cb.None? ==> body == []
    ensures Prompt(callbacks, Head(e) + body)
  {
    var log := Head(e) + body;
    assert forall i :: 0 <= i < |log| ==> log[i] == if i < |Head(e)| then Head(e)[i] else body[i - |Head(e)|];
  }

  lemma HeadLog(e: Entry)
    ensures Finishes(Head(e)) == [e] && AskedIn(Head(e)) == multiset{}
    ensures Entered(Head(e)) == CallbacksOf([e]) == if e.request.cb.Some? then [e.request.cb.value] else []
  {
    assert [e][1..] == [] && CallbacksOf([e][1..]) == [];
    var rest := Head(e)[1..];
    if e.request.cb.Some? {
      assert rest == [Called(e.request.cb.value)] && rest[1..] == [];
      assert Finishes(rest[1..]) == [] && Entered(rest[1..]) == [] && AskedIn(rest[1..]) == multiset{};
    } else {
      assert rest == [];
    }
  }

  /** From q to r the log gained `more`, with the calls `own` and their consequences, and completions kept pace. */
  ghost predicate Logged(callbacks: Callbacks, q: Queue, r: Queue, more: seq<Did>, own: multiset<Client>) {
    r.log == q.log + more && Stretch(callbacks, more, own) && r.completed == q.completed + Finishes(more)
  }

  lemma LoggedTwice(callbacks: Callbacks, q: Queue, r: Queue, u: Queue, a: seq<Did>, b: seq<Did>,
                    p: multiset<Client>, o: multiset<Client>)
    requires Logged(callbacks, q, r, a, p) && Logged(callbacks, r, u, b, o)
    ensures Logged(callbacks, q, u, a + b, p + o)
  {
    StretchConcat(callbacks, a, p, b, o);
    LogConcat(a, b);
    Associates(q.log, a, b);
    Associates(q.completed, Finishes(a), Finishes(b));
    hide Stretch, Finishes, AskedIn, Entered;
  }

  lemma Associates<T>(a: seq<T>, b: seq<T>, c: seq<T>)
    ensures (a + b) + c == a + (b + c)
  {
  }

  lemma LoggedFinished(callbacks: Callbacks, q: Queue, after: Queue, body: seq<Did>)
    requires q.pending != []
    requires var e := q.pending[0];
      if e.request.cb.Some? then
        var cb := e.request.cb.value;
        && Logged(callbacks, Note(Complete(q), Called(cb)), after, body, multiset(callbacks(cb)))
        && (callbacks(cb) != [] ==> body != [] && body[0] == Asked(callbacks(cb)[0]))
      else after == Complete(q) && body == []
    ensures Logged(callbacks, q, after, Head(q.pending[0]) + body, multiset{})
  {
    var e := q.pending[0];
    StretchFinished(callbacks, e, body);
    NothingLogged(callbacks);
    hide Stretch, Finishes, AskedIn, Entered, Prompt, CallbacksOf, Bodies;
    Associates(q.completed, [e], Finishes(body));
    Associates(q.log, Head(e), body);
    if e.request.cb.Some? {
      Associates(q.log, [Finished(e)], [Called(e.request.cb.value)]);
    } else {
      assert Head(e) == [Finished(e)] && Complete(q).log + [] == Complete(q).log;
    }
  }

  lemma LoggedAsked(callbacks: Callbacks, q: Queue, call: Client)
    ensures Logged(callbacks, q, Note(q, Asked(call)), [Asked(call)], multiset{call}) && Logged(callbacks, q, q, [], multiset{})
  {
    StretchAsked(callbacks, call);
    assert [Asked(call)][1..] == [] && q.log + [] == q.log && q.completed + [] == q.completed;
    NothingLogged(callbacks);
  }

  lemma {:induction false} PollLogged(callbacks: Callbacks, q: Queue) returns (more: seq<Did>)
    ensures Logged(callbacks, q, PollComplete(callbacks, q), more, multiset{})
    decreases Measure(q), 0, 0
  {
    hide Stretch, Logged, Note, Complete, Finishes;
    LoggedAsked(callbacks, q, Poll);
    if q.pending == [] {
      more := [];
    } else {
      var e := q.pending[0];
      var cb, r := e.request.cb, Complete(q);
      var body, after := [], r;
      if cb.Some? {
        body := ClientsLogged(callbacks, Note(r, Called(cb.value)), callbacks(cb.value));
        after := RunClients(callbacks, Note(r, Called(cb.value)), callbacks(cb.value));
      }
      LoggedFinished(callbacks, q, after, body);
      var rest := PollLogged(callbacks, after);
      more := Head(e) + body + rest;
      LoggedTwice(callbacks, q, after, PollComplete(callbacks, after), Head(e) + body, rest, multiset{}, multiset{});
      var none: multiset<Client> := multiset{};
      assert none + none == none;
    }
  }

  lemma {:induction false} ClientsLogged(callbacks: Callbacks, q: Queue, calls: seq<Client>) returns (more: seq<Did>)
    ensures Logged(callbacks, q, RunClients(callbacks, q, calls), more, multiset(calls))
    ensures calls != [] ==> more != [] && more[0] == Asked(calls[0])
    decreases Measure(q), 1, |calls|
  {
    hide Stretch, Logged, Note;
    if calls == [] {
      LoggedAsked(callbacks, q, Poll);
      more := [];
    } else {
      var c, n := calls[0], Note(q, Asked(calls[0]));
      LoggedAsked(callbacks, q, c);
      var r, done := Ask(callbacks, n, c), [];
      if c.Poll? { done := PollLogged(callbacks, n); } else { LoggedAnswer(callbacks, n, c); }
      LoggedTwice(callbacks, q, n, r, [Asked(c)], done, multiset{c}, multiset{});
      var rest := ClientsLogged(callbacks, r, calls[1..]);
      more := [Asked(c)] + done + rest;
      assert multiset(calls) == multiset{c} + multiset{} + multiset(calls[1..]) by { assert calls == [c] + calls[1..]; }
      LoggedTwice(callbacks, q, r, RunClients(callbacks, r, calls[1..]), [Asked(c)] + done, rest,
        multiset{c} + multiset{}, multiset(calls[1..]));
    }
  }

  lemma LoggedAnswer(callbacks: Callbacks, q: Queue, call: Client)
    requires !call.Poll?
    ensures Logged(callbacks, q, Answer(q, call), [], multiset{})
  {
    hide Stretch, Answer;
    LoggedAsked(callbacks, q, call);
    AnswerLog(q, call);
  }

  lemma AnswerLog(q: Queue, call: Client)
    requires !call.Poll?
    ensures Answer(q, call).log == q.log && Answer(q, call).completed == q.completed
  {
  }

  /**
   * Whatever clients and callbacks do: the callback of every completed request is entered once, right after
   * its completion and in order of completion, and exactly the calls of the clients and of the bodies of
   * those callbacks have been made.
   */
  lemma CallbacksRunOnce(callbacks: Callbacks, calls: seq<Client>, start: Addr, end: Addr)
    ensures var r := RunClients(callbacks, Fresh(start, end), calls);
      && Finishes(r.log) == r.completed && Entered(r.log) == CallbacksOf(r.completed) && Prompt(callbacks, r.log)
      && AskedIn(r.log) == multiset(calls) + Bodies(callbacks, CallbacksOf(r.completed))
  {
    var more := ClientsLogged(callbacks, Fresh(start, end), calls);
    hide Finishes, Entered, AskedIn, Bodies, CallbacksOf, Prompt, RunClients;
    assert [] + more == more && [] + Finishes(more) == Finishes(more);
  }

  /** Calls are made in the order given, each with its own effect. */
  lemma {:induction false} ClientsInOrder(callbacks: Callbacks, q: Queue, a: seq<Client>, b: seq<Client>)
    ensures RunClients(callbacks, q, a + b) == RunClients(callbacks, RunClients(callbacks, q, a), b)
    ensures |a| == 1 ==> RunClients(callbacks, q, a) == Ask(callbacks, Note(q, Asked(a[0])), a[0])
    decreases |a|
  {
    if a == [] {
      assert a + b == b;
    } else {
      assert (a + b)[0] == a[0] && (a + b)[1..] == a[1..] + b;
      ClientsInOrder(callbacks, Ask(callbacks, Note(q, Asked(a[0])), a[0]), a[1..], b);
    }
  }

  // ---- Preemption and interrupts inside a call ----

  /**
   * A thread preempted between the two halves of dma_alloc_desc continues with the address it read before,
   * whatever calls others made meanwhile: a submit that succeeds keeps the queue in order exactly when they
   * carved no descriptor.
   */
  lemma PreemptedSubmit(callbacks: Callbacks, q: Queue, calls: seq<Client>, request: Request, start: Addr, end: Addr)
    requires Inv(q, start, end)
    ensures var mid := RunClients(callbacks, q, calls);
      var (r, code) := SubmitFrom(mid, ReadNext(q), request);
      code == 0 ==> (Inv(r, start, end) <==> mid.descNext == q.descNext)
  {
    var mid := RunClients(callbacks, q, calls);
    ClientsKeep(callbacks, q, calls, start, end);
    var (r, code) := SubmitFrom(mid, ReadNext(q), request);
    if mid.descNext == q.descNext {
      AnswerKeeps(mid, Submit(request), start, end);
    } else if code == 0 {
      var n := |mid.submitted|;
      assert r.submitted[n - 1] == mid.submitted[n - 1] && mid.submitted[n - 1].desc % DESC_ALIGN == 0;
      NextAligned(q.descNext, mid.submitted[n - 1].desc);
      assert r.submitted[n].desc == ReadNext(q) <= r.submitted[n - 1].desc;
    }
  }

  lemma NextAligned(a: Addr, d: Addr)
    requires a <= d && d % DESC_ALIGN == 0
    ensures AlignUp(a, DESC_ALIGN) <= d
  {
  }

  /** If the preempting thread submits and does not poll, the two requests are pending under one descriptor. */
  lemma SharedDescriptor(q: Queue, inner: Request, outer: Request)
    requires inner.dst != 0 && inner.src != 0 && inner.len != 0 && outer.dst != 0 && outer.src != 0 && outer.len != 0
    requires ReadNext(q) + DESC_SIZE <= q.bufEnd
    ensures var r := SubmitFrom(SubmitMemcpy(q, inner).0, ReadNext(q), outer).0;
      r.pending == q.pending + [Entry(ReadNext(q), inner)] + [Entry(ReadNext(q), outer)]
  {
  }

  /** A submit with a timer interrupt between its halves, which polls. */
  function InterruptedSubmit(callbacks: Callbacks, q: Queue, request: Request): (Queue, int) {
    SubmitFrom(PollComplete(callbacks, q), ReadNext(q), request)
  }

  /**
   * The interrupt alone does no such harm: it leaves nothing pending, so the request is the only one, and what
   * its descriptor may be shared with is completed.
   */
  lemma InterruptedSubmitIsLive(callbacks: Callbacks, q: Queue, request: Request, start: Addr, end: Addr)
    requires Live(q, start, end)
    ensures var (r, code) := InterruptedSubmit(callbacks, q, request);
      && Live(r, start, end) && PollComplete(callbacks, q).completed <= r.completed
      && (code == 0 ==> r.pending == [Entry(ReadNext(q), request)])
      && (code != 0 ==> r.pending == [])
  {
    PollLive(callbacks, q, start, end);
    var mid := PollComplete(callbacks, q);
    var (r, code) := InterruptedSubmit(callbacks, q, request);
    assert mid.submitted == mid.completed;
    hide PollComplete;
    assert r.submitted == r.completed + r.pending;
  }

  datatype Move = Calls(calls: seq<Client>) | Interrupted(request: Request)

  /** Clients' calls, with submits among them interrupted by polls. */
  function RunMoves(callbacks: Callbacks, q: Queue, moves: seq<Move>): Queue
    decreases |moves|
  {
    if moves == [] then q
    else
      var r := match moves[0]
        case Calls(calls) => RunClients(callbacks, q, calls)
        case Interrupted(request) => InterruptedSubmit(callbacks, q, request).0;
      RunMoves(callbacks, r, moves[1..])
  }

  lemma {:induction false} MovesLive(callbacks: Callbacks, q: Queue, moves: seq<Move>, start: Addr, end: Addr)
    requires Live(q, start, end)
    ensures Live(RunMoves(callbacks, q, moves), start, end)
    decreases |moves|
  {
    hide Live;
    if moves != [] {
      match moves[0]
      case Calls(calls) =>
        ClientsLive(callbacks, q, calls, start, end);
        KeptLive(q, RunClients(callbacks, q, calls), start, end);
        MovesLive(callbacks, RunClients(callbacks, q, calls), moves[1..], start, end);
      case Interrupted(request) =>
        InterruptedSubmitIsLive(callbacks, q, request, start, end);
        MovesLive(callbacks, InterruptedSubmit(callbacks, q, request).0, moves[1..], start, end);
    }
  }

  /**
   * Whatever submits are interrupted by polls: completion follows submission, once per request, and pending
   * descriptors overlap neither each other nor a buffer.
   */
  lemma InterruptsKeepPending(callbacks: Callbacks, moves: seq<Move>, start: Addr, end: Addr)
    requires start <= end
    ensures var r := RunMoves(callbacks, Fresh(start, end), moves);
      && r.submitted == r.completed + r.pending
      && (forall i, j :: 0 <= i < j < |r.pending| ==> r.pending[i].desc + DESC_SIZE <= r.pending[j].desc)
      && (forall i, k :: 0 <= i < |r.pending| && 0 <= k < |r.buffers| ==>
            r.pending[i].desc + DESC_SIZE <= r.buffers[k].start)
      && (forall i, j :: 0 <= i < j < |r.buffers| ==> r.buffers[j].start + r.buffers[j].len <= r.buffers[i].start)
      && PollComplete(callbacks, r).completed == PollComplete(callbacks, r).submitted
  {
    MovesLive(callbacks, Fresh(start, end), moves, start, end);
    var r := RunMoves(callbacks, Fresh(start, end), moves);
    PollLive(callbacks, r, start, end);
    assert PollComplete(callbacks, r).submitted == PollComplete(callbacks, r).completed + [];
    hide RunMoves, PollComplete, Extends;
  }

  /**
   * dma_alloc_buffer interrupted or preempted after it read g_dma_buf_end: a buffer that is granted keeps the
   * queue in order exactly when it still lies below what was handed out meanwhile.
   */
  lemma PreemptedAllocate(callbacks: Callbacks, q: Queue, calls: seq<Client>, len: nat, align: nat, start: Addr,
                          end: Addr)
    requires Inv(q, start, end)
    ensures var mid := RunClients(callbacks, q, calls);
      var (r, a) := AllocFrom(mid, q.bufEnd, len, align);
      a.Some? ==> (Inv(r, start, end) <==> a.value + len <= mid.bufEnd)
  {
    ClientsKeep(callbacks, q, calls, start, end);
    AllocLate(RunClients(callbacks, q, calls), q, len, align, start, end);
    hide RunClients, Inv, AllocFrom;
  }

  lemma AllocLate(mid: Queue, q: Queue, len: nat, align: nat, start: Addr, end: Addr)
    requires Inv(q, start, end) && Inv(mid, start, end) && Extends(q, mid)
    ensures var (r, a) := AllocFrom(mid, q.bufEnd, len, align);
      a.Some? ==> (Inv(r, start, end) <==> a.value + len <= mid.bufEnd)
  {
    hide Descriptors;
    var (r, a) := AllocFrom(mid, q.bufEnd, len, align);
    if a.Some? && mid.buffers != q.buffers {
      var n := |mid.buffers|;
      assert r.buffers[n - 1] == mid.buffers[n - 1] && r.buffers[n] == Buffer(a.value, len);
    }
  }

  /** An interrupt whose poll runs one callback that allocates: it and the thread are handed the same buffer. */
  lemma SameBuffer(callbacks: Callbacks, q: Queue, e: Entry, cb: nat, len: nat)
    requires q.pending == [e] && e.request.cb == Some(cb) && callbacks(cb) == [Allocate(len, 1)]
    requires len > 0 && q.descNext + len <= q.bufEnd
    ensures var mid := RunClients(callbacks, q, [Poll]);
      && mid.buffers == q.buffers + [Buffer(q.bufEnd - len, len)]
      && AllocFrom(mid, q.bufEnd, len, 1).1 == Some(q.bufEnd - len)
  {
    var n := Note(q, Asked(Poll));
    var c := Complete(n);
    assert AlignDown(q.bufEnd - len, 1) == q.bufEnd - len;
    assert c.pending == [] && [Allocate(len, 1)][1..] == [];
    var r := Answer(Note(Note(c, Called(cb)), Asked(Allocate(len, 1))), Allocate(len, 1));
    assert PollComplete(callbacks, n) == PollComplete(callbacks, r) == r by {
      assert RunClients(callbacks, r, []) == r;
      assert RunClients(callbacks, Note(c, Called(cb)), callbacks(cb)) == r;
    }
    assert [Poll][1..] == [] && RunClients(callbacks, r, []) == r;
  }

  // ---- A poll inside a poll ----

  /** A poll among the calls completes the head; the other calls complete nothing. */
  lemma {:induction false} PollsComplete(callbacks: Callbacks, q: Queue, calls: seq<Client>, start: Addr, end: Addr)
    requires Inv(q, start, end) && q.pending != []
    ensures RunClients(callbacks, q, calls).completed == q.completed <==> Poll !in calls
    decreases |calls|
  {
    if calls != [] {
      var n := Note(q, Asked(calls[0]));
      NoteKept(q, Asked(calls[0]), start, end);
      if calls[0].Poll? {
        PollKeeps(callbacks, n, start, end);
        ClientsKeep(callbacks, PollComplete(callbacks, n), calls[1..], start, end);
      } else {
        AnswerKeeps(n, calls[0], start, end);
        AnswerPending(n, calls[0]);
        PollsComplete(callbacks, Answer(n, calls[0]), calls[1..], start, end);
      }
      hide Inv, PollComplete, Answer;
      assert calls == [calls[0]] + calls[1..];
    }
  }

  lemma AnswerPending(q: Queue, call: Client)
    requires !call.Poll?
    ensures Answer(q, call).completed == q.completed && q.pending <= Answer(q, call).pending
  {
  }

  /**
   * A poll that has read the head e, interrupted or preempted before it moves the head on: it completes e
   * once, and keeps the queue in order, exactly when nobody else polled meanwhile. Otherwise e is completed
   * twice, and what was submitted since that other poll is dropped.
   */
  lemma PreemptedPoll(callbacks: Callbacks, q: Queue, calls: seq<Client>, start: Addr, end: Addr)
    requires Inv(q, start, end) && q.pending != []
    ensures var mid := RunClients(callbacks, q, calls);
      var r := FinishPop(mid, q.pending[0]);
      && (Inv(r, start, end) <==> Poll !in calls)
      && (Poll !in calls ==> mid.pending != [] && mid.pending[0] == q.pending[0] && r == Complete(mid))
      && (Poll in calls ==>
            q.pending[0] in mid.completed && r.completed == mid.completed + [q.pending[0]] && r.pending == [])
  {
    var mid, e := RunClients(callbacks, q, calls), q.pending[0];
    ClientsKeep(callbacks, q, calls, start, end);
    PollsComplete(callbacks, q, calls, start, end);
    StaysFirst(q, mid, start, end);
    if Poll !in calls { CompleteKeeps(mid, start, end); }
    hide RunClients, Extends;
    if Poll in calls { TwiceIsNotOnce(mid, e, start, end); }
  }

  /** The head stays the next to complete, or is completed. */
  lemma StaysFirst(q: Queue, mid: Queue, start: Addr, end: Addr)
    requires Inv(q, start, end) && Inv(mid, start, end) && Extends(q, mid) && q.pending != []
    ensures mid.completed == q.completed ==> mid.pending != [] && mid.pending[0] == q.pending[0]
    ensures mid.completed != q.completed ==> q.pending[0] in mid.completed && q.pending[0] !in mid.pending
  {
    var n, e := |q.completed|, q.pending[0];
    assert q.submitted[n] == e && mid.submitted[n] == e;
    if mid.completed != q.completed {
      assert mid.completed[n] == mid.submitted[n];
      forall i | 0 <= i < |mid.pending| ensures mid.pending[i] != e {
        assert mid.submitted[|mid.completed| + i] == mid.pending[i];
      }
    } else {
      assert mid.submitted[n] == mid.pending[0];
    }
  }

  lemma TwiceIsNotOnce(mid: Queue, e: Entry, start: Addr, end: Addr)
    requires Inv(mid, start, end) && e in mid.completed && e !in mid.pending
    ensures !Inv(FinishPop(mid, e), start, end)
  {
    var a, b := mid.completed + mid.pending, mid.completed + [e];
    assert |a| == |b| ==> a[|mid.completed|] != b[|mid.completed|];
    assert FinishPop(mid, e).pending == [] && b + [] == b;
  }

  /** If it was only the interrupt's poll, nothing is lost: everything is completed once, in order, and then e again. */
  lemma InterruptedPoll(callbacks: Callbacks, q: Queue, start: Addr, end: Addr)
    requires Inv(q, start, end) && q.pending != []
    ensures var mid := PollComplete(callbacks, q);
      var r := FinishPop(mid, q.pending[0]);
      && r.pending == [] && r.completed == r.submitted + [q.pending[0]] && q.pending[0] in r.submitted
  {
    var mid := PollComplete(callbacks, q);
    PollKeeps(callbacks, q, start, end);
    hide PollComplete;
    assert q.submitted[|q.completed|] == q.pending[0] == mid.submitted[|q.completed|];
  }
}
