/**
 * Search synchronisation: a CDC worker turns the change log of the shows
 * collection into a durable outbox, a drainer applies the outbox to the search
 * index. Either process may crash between any two database operations.
 *
 * Log positions stand for resume tokens. The worker asks for the full document
 * of an update, and Mongo answers with the document as it is when the event is
 * read, not as it was when the change happened.
 */
module SearchSync {
  import opened Wrappers

  type ShowId = nat

  datatype Show = Show(
    title: Option<string>,
    deletedAt: Option<int>,
    description: Option<string>,
    tags: seq<string>,
    categoryIds: seq<string>,
    showType: Option<string>,
    city: Option<string>,
    venue: Option<string>,
    thumbnailUrl: Option<string>,
    posterUrl: Option<string>)

  datatype SearchDoc = SearchDoc(
    id: ShowId,
    title: string,
    description: Option<string>,
    tags: seq<string>,
    categoryIds: seq<string>,
    showType: Option<string>,
    city: Option<string>,
    venue: Option<string>,
    thumbnailUrl: Option<string>,
    posterUrl: Option<string>)

  datatype Change =
    | Insert(id: ShowId, doc: Show)
    | Replace(id: ShowId, doc: Show)
    | Update(id: ShowId, doc: Show)   // with the document it results in
    | Delete(id: ShowId)

  datatype Operation = Upsert(doc: SearchDoc) | Remove

  datatype Draft = Draft(token: nat, id: ShowId, operation: Operation)

  datatype OutboxEvent = OutboxEvent(sequence: nat, draft: Draft)

  // -------------------------------------------------------- the source of truth

  /** The shows collection after the logged changes. */
  function Source(base: map<ShowId, Show>, log: seq<Change>): map<ShowId, Show> {
    if log == [] then base
    else
      var last := log[|log| - 1];
      var before := Source(base, log[..|log| - 1]);
      if last.Delete? then before - {last.id} else before[last.id := last.doc]
  }

  function SearchFields(id: ShowId, show: Show, title: string): SearchDoc {
    SearchDoc(id, title, show.description, show.tags, show.categoryIds, show.showType,
              show.city, show.venue, show.thumbnailUrl, show.posterUrl)
  }

  predicate Searchable(show: Show) {
    show.deletedAt.None? && show.title.Some? && show.title.value != ""
  }

  /** What the index ought to hold: every titled show that is not soft-deleted. */
  function Projection(shows: map<ShowId, Show>): map<ShowId, SearchDoc> {
    map id | id in shows && Searchable(shows[id]) :: SearchFields(id, shows[id], shows[id].title.value)
  }

  // ------------------------------------------------------------ change to event

  /** The document that comes with change k when it is read at the end of this log. */
  function FullDocument(base: map<ShowId, Show>, log: seq<Change>, k: nat): Option<Show>
    requires k < |log|
  {
    match log[k]
    case Insert(_, doc) => Some(doc)
    case Replace(_, doc) => Some(doc)
    case Update(id, _) => if id in Source(base, log) then Some(Source(base, log)[id]) else None
    case Delete(_) => None
  }

  /** `change_to_outbox_event`; None is an error, upon which the worker reconnects. */
  function ChangeToOperation(id: ShowId, deleted: bool, doc: Option<Show>): Option<Operation> {
    if deleted then Some(Remove)
    else if doc.None? then None
    else if doc.value.deletedAt.Some? then Some(Remove)
    else if doc.value.title.None? || doc.value.title.value == "" then None
    else Some(Upsert(SearchFields(id, doc.value, doc.value.title.value)))
  }

  function Materialise(base: map<ShowId, Show>, log: seq<Change>, k: nat): Option<Operation>
    requires k < |log|
  {
    ChangeToOperation(log[k].id, log[k].Delete?, FullDocument(base, log, k))
  }

  // --------------------------------------------------------------- the machine

  datatype WorkerPc =
    | Down
    | Streaming(next: nat)
    | Finding(draft: Draft)
    | Allocating(draft: Draft)
    | Inserting(draft: Draft, sequence: nat)
    | Checkpointing(draft: Draft)

  datatype DrainPc =
    | Polling
    | Claimed(event: OutboxEvent)
    | Applied(event: OutboxEvent)

  datatype State = State(
    base: map<ShowId, Show>,
    log: seq<Change>,
    checkpoint: Option<nat>,       // how many changes are behind the stored token
    counter: nat,
    outbox: seq<OutboxEvent>,
    worker: WorkerPc,
    index: map<ShowId, SearchDoc>,
    lastSequence: nat,
    drainer: DrainPc)

  datatype Event =
    | Write(change: Change)
    | WorkerStart | WorkerRead | WorkerFind | WorkerAllocate | WorkerInsert | WorkerCheckpoint | WorkerCrash
    | DrainClaim | DrainApply(answered: bool) | DrainMark | DrainCrash

  function Init(base: map<ShowId, Show>, checkpoint: Option<nat>): State {
    State(base, [], checkpoint, 0, [], Down, Projection(base), 0, Polling)
  }

  predicate HasToken(outbox: seq<OutboxEvent>, token: nat) {
    exists k :: 0 <= k < |outbox| && outbox[k].draft.token == token
  }

  predicate HasSequence(outbox: seq<OutboxEvent>, sequence: nat) {
    exists k :: 0 <= k < |outbox| && outbox[k].sequence == sequence
  }

  /** The stored event with the least sequence above `last`. */
  function ClaimNext(outbox: seq<OutboxEvent>, last: nat): Option<OutboxEvent> {
    if outbox == [] then None
    else
      var e := outbox[|outbox| - 1];
      var best := ClaimNext(outbox[..|outbox| - 1], last);
      if e.sequence > last && (best.None? || e.sequence < best.value.sequence) then Some(e) else best
  }

  function ApplyEvent(index: map<ShowId, SearchDoc>, e: OutboxEvent): map<ShowId, SearchDoc> {
    match e.draft.operation
    case Upsert(doc) => index[e.draft.id := doc]
    case Remove => index - {e.draft.id}
  }

  function Step(s: State, ev: Event): State {
    match ev
    case Write(change) => s.(log := s.log + [change])
    case WorkerStart =>
      if s.worker.Down? then
        s.(worker := Streaming(if s.checkpoint.Some? then s.checkpoint.value else |s.log|))
      else s
    case WorkerRead =>
      if s.worker.Streaming? && s.worker.next < |s.log| then
        var k := s.worker.next;
        var operation := Materialise(s.base, s.log, k);
        s.(worker := if operation.Some? then Finding(Draft(k, s.log[k].id, operation.value)) else Down)
      else s
    case WorkerFind =>
      if s.worker.Finding? then
        s.(worker := if HasToken(s.outbox, s.worker.draft.token) then Checkpointing(s.worker.draft)
                     else Allocating(s.worker.draft))
      else s
    case WorkerAllocate =>
      if s.worker.Allocating? then s.(counter := s.counter + 1, worker := Inserting(s.worker.draft, s.counter + 1)) else s
    case WorkerInsert =>
      if s.worker.Inserting? then
        var duplicate := HasToken(s.outbox, s.worker.draft.token) || HasSequence(s.outbox, s.worker.sequence);
        s.(outbox := if duplicate then s.outbox else s.outbox + [OutboxEvent(s.worker.sequence, s.worker.draft)],
           worker := Checkpointing(s.worker.draft))
      else s
    case WorkerCheckpoint =>
      if s.worker.Checkpointing? then
        var next := s.worker.draft.token + 1;
        s.(checkpoint := Some(next), worker := Streaming(next))
      else s
    case WorkerCrash => s.(worker := Down)
    case DrainClaim =>
      if s.drainer.Polling? then
        var next := ClaimNext(s.outbox, s.lastSequence);
        if next.Some? then s.(drainer := Claimed(next.value)) else s
      else s
    case DrainApply(answered) =>
      if s.drainer.Claimed? then
        if answered then s.(index := ApplyEvent(s.index, s.drainer.event), drainer := Applied(s.drainer.event))
        else s.(drainer := Polling)
      else s
    case DrainMark =>
      if s.drainer.Applied? then s.(lastSequence := s.drainer.event.sequence, drainer := Polling) else s
    case DrainCrash => s.(drainer := Polling)
  }

  function Exec(s: State, run: seq<Event>): State {
    if run == [] then s else Step(Exec(s, run[..|run| - 1]), run[|run| - 1])
  }

  // ------------------------------------------------------- the outbox invariant

  /** The operation is what change k looked like at some moment after it happened. */
  ghost predicate Faithful(base: map<ShowId, Show>, log: seq<Change>, d: Draft) {
    d.token < |log| && d.id == log[d.token].id
    && exists n :: d.token < n <= |log| && Materialise(base, log[..n], d.token) == Some(d.operation)
  }

  /** One event per change, in order, with rising sequence numbers. */
  ghost predicate OutboxOk(s: State) {
    && (forall k :: 0 <= k < |s.outbox| ==> s.outbox[k].draft.token == k && Faithful(s.base, s.log, s.outbox[k].draft))
    && (forall k :: 0 <= k < |s.outbox| ==> 1 <= s.outbox[k].sequence <= s.counter)
    && (forall j, k :: 0 <= j < k < |s.outbox| ==> s.outbox[j].sequence < s.outbox[k].sequence)
  }

  ghost predicate DraftOk(s: State, d: Draft) {
    (s.checkpoint.Some? ==> s.checkpoint.value == d.token) && Faithful(s.base, s.log, d)
  }

  /** No worker is up to record the changes that are still unrecorded, and no checkpoint says where they begin. */
  predicate Unguarded(s: State) {
    s.worker.Down? && s.checkpoint.None? && |s.outbox| < |s.log|
  }

  ghost predicate WorkerOk(s: State) {
    && (s.checkpoint.Some? ==> s.checkpoint.value <= |s.outbox| <= s.checkpoint.value + 1 && s.checkpoint.value <= |s.log|)
    && match s.worker
       case Down => true
       case Streaming(next) => (s.checkpoint.Some? ==> next == s.checkpoint.value) && next <= |s.outbox| <= next + 1 && next <= |s.log|
       case Finding(d) => DraftOk(s, d) && d.token <= |s.outbox| <= d.token + 1
       case Allocating(d) => DraftOk(s, d) && |s.outbox| == d.token
       case Inserting(d, sequence) => DraftOk(s, d) && |s.outbox| == d.token && 1 <= sequence <= s.counter
           && forall k :: 0 <= k < |s.outbox| ==> s.outbox[k].sequence < sequence
       case Checkpointing(d) => DraftOk(s, d) && |s.outbox| == d.token + 1
  }

  lemma FaithfulLater(base: map<ShowId, Show>, log: seq<Change>, change: Change, d: Draft)
    requires Faithful(base, log, d)
    ensures Faithful(base, log + [change], d)
  {
    var n :| d.token < n <= |log| && Materialise(base, log[..n], d.token) == Some(d.operation);
    assert (log + [change])[..n] == log[..n];
  }

  lemma FaithfulNow(base: map<ShowId, Show>, log: seq<Change>, k: nat)
    requires k < |log| && Materialise(base, log, k).Some?
    ensures Faithful(base, log, Draft(k, log[k].id, Materialise(base, log, k).value))
  {
    assert log[..|log|] == log;
  }

  lemma WriteKeepsOutbox(s: State, change: Change)
    requires OutboxOk(s) && WorkerOk(s)
    ensures OutboxOk(Step(s, Write(change))) && WorkerOk(Step(s, Write(change)))
  {
    forall k | 0 <= k < |s.outbox|
      ensures Faithful(s.base, s.log + [change], s.outbox[k].draft)
    {
      FaithfulLater(s.base, s.log, change, s.outbox[k].draft);
    }
    if s.worker.Finding? || s.worker.Allocating? || s.worker.Inserting? || s.worker.Checkpointing? {
      FaithfulLater(s.base, s.log, change, s.worker.draft);
    }
  }

  lemma TokensAre(s: State, token: nat)
    requires OutboxOk(s)
    ensures HasToken(s.outbox, token) <==> token < |s.outbox|
  {
    if token < |s.outbox| {
      assert s.outbox[token].draft.token == token;
    }
  }

  lemma ReadStep(s: State)
    requires OutboxOk(s) && WorkerOk(s)
    ensures OutboxOk(Step(s, WorkerRead)) && WorkerOk(Step(s, WorkerRead))
  {
    if s.worker.Streaming? && s.worker.next < |s.log| && Materialise(s.base, s.log, s.worker.next).Some? {
      FaithfulNow(s.base, s.log, s.worker.next);
    }
  }

  lemma FindStep(s: State)
    requires OutboxOk(s) && WorkerOk(s)
    ensures OutboxOk(Step(s, WorkerFind)) && WorkerOk(Step(s, WorkerFind))
  {
    if s.worker.Finding? { TokensAre(s, s.worker.draft.token); }
  }

  /** The event goes in: neither its token nor its sequence number is taken. */
  lemma InsertAppends(s: State)
    requires OutboxOk(s) && WorkerOk(s) && s.worker.Inserting?
    ensures Step(s, WorkerInsert).outbox == s.outbox + [OutboxEvent(s.worker.sequence, s.worker.draft)]
  {
    TokensAre(s, s.worker.draft.token);
    assert !HasSequence(s.outbox, s.worker.sequence);
  }

  lemma InsertStep(s: State)
    requires OutboxOk(s) && WorkerOk(s)
    ensures OutboxOk(Step(s, WorkerInsert)) && WorkerOk(Step(s, WorkerInsert))
  {
    if s.worker.Inserting? {
      InsertAppends(s);
    }
  }

  lemma OtherOutboxStep(s: State, ev: Event)
    requires OutboxOk(s) && WorkerOk(s) && !Unguarded(s)
    requires !ev.Write? && !ev.WorkerRead? && !ev.WorkerFind? && !ev.WorkerInsert?
    ensures OutboxOk(Step(s, ev)) && WorkerOk(Step(s, ev))
  {
    if ev.WorkerAllocate? {
      AllocateStep(s);
    } else {
      OutboxWithinLog(s);
      SameOutbox(s, ev);
      assert forall k :: 0 <= k < |s.outbox| ==> Faithful(s.base, s.log, s.outbox[k].draft);
    }
  }

  lemma SameOutbox(s: State, ev: Event)
    requires !ev.Write? && !ev.WorkerRead? && !ev.WorkerFind? && !ev.WorkerInsert? && !ev.WorkerAllocate?
    ensures var t := Step(s, ev);
            && t.base == s.base && t.log == s.log && t.outbox == s.outbox && t.counter == s.counter
            && (t.checkpoint == s.checkpoint || (s.worker.Checkpointing? && t.checkpoint == Some(s.worker.draft.token + 1)))
  {
  }

  lemma AllocateStep(s: State)
    requires OutboxOk(s) && WorkerOk(s)
    ensures OutboxOk(Step(s, WorkerAllocate)) && WorkerOk(Step(s, WorkerAllocate))
  {
  }

  lemma OutboxStep(s: State, ev: Event)
    requires OutboxOk(s) && WorkerOk(s) && !Unguarded(s)
    ensures OutboxOk(Step(s, ev)) && WorkerOk(Step(s, ev))
  {
    match ev
    case Write(change) => WriteKeepsOutbox(s, change);
    case WorkerRead => ReadStep(s);
    case WorkerFind => FindStep(s);
    case WorkerInsert => InsertStep(s);
    case _ => OtherOutboxStep(s, ev);
  }

  predicate UnguardedAfter(s: State, run: seq<Event>, n: nat) {
    n <= |run| && Unguarded(Exec(s, run[..n]))
  }

  ghost predicate GuardedOn(s: State, run: seq<Event>) {
    forall n: nat :: n <= |run| ==> !UnguardedAfter(s, run, n)
  }

  /** A run from a stored checkpoint, or one that is never unguarded. */
  ghost predicate Guarded(base: map<ShowId, Show>, from: Option<nat>, run: seq<Event>) {
    from == Some(0) || (from.None? && GuardedOn(Init(base, None), run))
  }

  lemma GuardedBefore(base: map<ShowId, Show>, from: Option<nat>, run: seq<Event>, m: nat)
    requires Guarded(base, from, run) && m <= |run|
    ensures Guarded(base, from, run[..m])
    ensures from.None? ==> !Unguarded(Exec(Init(base, None), run[..m]))
  {
    if from.None? {
      forall n: nat | n <= m
        ensures !UnguardedAfter(Init(base, None), run[..m], n)
      {
        assert run[..m][..n] == run[..n];
        assert !UnguardedAfter(Init(base, None), run, n);
      }
      assert !UnguardedAfter(Init(base, None), run, m);
    }
  }

  lemma {:induction false} OutboxInRuns(base: map<ShowId, Show>, from: Option<nat>, run: seq<Event>)
    requires Guarded(base, from, run)
    ensures var s := Exec(Init(base, from), run);
            s.base == base && OutboxOk(s) && WorkerOk(s) && (from.Some? ==> s.checkpoint.Some?)
  {
    if run != [] {
      var s := Exec(Init(base, from), run[..|run| - 1]);
      GuardedBefore(base, from, run, |run| - 1);
      OutboxInRuns(base, from, run[..|run| - 1]);
      OutboxStep(s, run[|run| - 1]);
      StepKeeps(s, run[|run| - 1]);
    }
  }

  lemma StepKeeps(s: State, ev: Event)
    ensures Step(s, ev).base == s.base && (s.checkpoint.Some? ==> Step(s, ev).checkpoint.Some?)
  {
  }

  // -------------------------------------------------------- the index invariant

  function Fold(index: map<ShowId, SearchDoc>, events: seq<OutboxEvent>): map<ShowId, SearchDoc> {
    if events == [] then index
    else ApplyEvent(Fold(index, events[..|events| - 1]), events[|events| - 1])
  }

  /** How many events are marked as indexed. */
  function Marked(outbox: seq<OutboxEvent>, last: nat): (d: nat)
    ensures d <= |outbox|
  {
    if outbox == [] then 0
    else if outbox[|outbox| - 1].sequence <= last then |outbox|
    else Marked(outbox[..|outbox| - 1], last)
  }

  ghost predicate Rising(outbox: seq<OutboxEvent>) {
    forall j, k :: 0 <= j < k < |outbox| ==> outbox[j].sequence < outbox[k].sequence
  }

  lemma {:induction false} MarkedIs(outbox: seq<OutboxEvent>, last: nat)
    requires Rising(outbox)
    ensures forall k :: 0 <= k < |outbox| ==> (outbox[k].sequence <= last <==> k < Marked(outbox, last))
  {
    if outbox != [] {
      MarkedIs(outbox[..|outbox| - 1], last);
    }
  }

  lemma {:induction false} ClaimIsNext(outbox: seq<OutboxEvent>, last: nat)
    requires Rising(outbox)
    ensures ClaimNext(outbox, last)
         == if Marked(outbox, last) < |outbox| then Some(outbox[Marked(outbox, last)]) else None
  {
    if outbox != [] {
      var n := |outbox| - 1;
      MarkedIs(outbox, last);
      ClaimIsNext(outbox[..n], last);
      if Marked(outbox, last) == n {
        MarkedIs(outbox[..n], last);
        assert Marked(outbox[..n], last) == n;
      }
    }
  }

  lemma MarkedUnique(outbox: seq<OutboxEvent>, last: nat, d: nat)
    requires Rising(outbox) && d <= |outbox|
    requires forall k :: 0 <= k < |outbox| ==> (outbox[k].sequence <= last <==> k < d)
    ensures Marked(outbox, last) == d
  {
    MarkedIs(outbox, last);
    var m := Marked(outbox, last);
    assert m < |outbox| ==> !(outbox[m].sequence <= last);
    assert d < |outbox| ==> !(outbox[d].sequence <= last);
  }

  predicate FoldedTo(base: map<ShowId, Show>, outbox: seq<OutboxEvent>, index: map<ShowId, SearchDoc>, d: nat)
    requires d <= |outbox|
  {
    || index == Fold(Projection(base), outbox[..d])
    || (d < |outbox| && index == Fold(Projection(base), outbox[..d + 1]))
  }

  /** The index is the fold of the marked events, or of one more. */
  ghost predicate IndexOk(s: State) {
    IndexIs(s.base, s.outbox, s.index, s.lastSequence, s.drainer)
  }

  ghost predicate IndexIs(base: map<ShowId, Show>, outbox: seq<OutboxEvent>, index: map<ShowId, SearchDoc>, last: nat, drainer: DrainPc) {
    var d := Marked(outbox, last);
    && last <= LastSequence(outbox)
    && FoldedTo(base, outbox, index, d)
    && (!drainer.Polling? ==> d < |outbox| && drainer.event == outbox[d])
    && (drainer.Applied? ==> index == Fold(Projection(base), outbox[..d + 1]))
  }

  function LastSequence(outbox: seq<OutboxEvent>): nat {
    if outbox == [] then 0 else outbox[|outbox| - 1].sequence
  }

  lemma ReplayHarmless(index: map<ShowId, SearchDoc>, e: OutboxEvent)
    ensures ApplyEvent(ApplyEvent(index, e), e) == ApplyEvent(index, e)
  {
  }

  lemma FoldOneMore(index: map<ShowId, SearchDoc>, outbox: seq<OutboxEvent>, d: nat)
    requires d < |outbox|
    ensures Fold(index, outbox[..d + 1]) == ApplyEvent(Fold(index, outbox[..d]), outbox[d])
  {
    assert outbox[..d + 1][..d] == outbox[..d];
  }

  lemma IndexInsertStep(s: State)
    requires OutboxOk(s) && WorkerOk(s) && IndexOk(s)
    ensures IndexOk(Step(s, WorkerInsert))
  {
    if s.worker.Inserting? {
      InsertAppends(s);
      InsertsBeyond(s);
      IndexKept(s.base, s.outbox, OutboxEvent(s.worker.sequence, s.worker.draft), s.index, s.lastSequence, s.drainer);
      InsertLeavesIndex(s);
    }
  }

  lemma InsertLeavesIndex(s: State)
    ensures var t := Step(s, WorkerInsert);
            t.base == s.base && t.index == s.index && t.lastSequence == s.lastSequence && t.drainer == s.drainer
  {
  }

  lemma IndexKept(base: map<ShowId, Show>, outbox: seq<OutboxEvent>, e: OutboxEvent, index: map<ShowId, SearchDoc>, last: nat, drainer: DrainPc)
    requires IndexIs(base, outbox, index, last, drainer) && LastSequence(outbox) < e.sequence
    ensures IndexIs(base, outbox + [e], index, last, drainer)
  {
    MoreToFold(base, outbox, e, index, last);
  }

  lemma InsertsBeyond(s: State)
    requires WorkerOk(s) && s.worker.Inserting?
    ensures LastSequence(s.outbox) < s.worker.sequence
  {
  }

  lemma MoreToFold(base: map<ShowId, Show>, outbox: seq<OutboxEvent>, e: OutboxEvent, index: map<ShowId, SearchDoc>, last: nat)
    requires e.sequence > last && FoldedTo(base, outbox, index, Marked(outbox, last))
    ensures Marked(outbox + [e], last) == Marked(outbox, last) && FoldedTo(base, outbox + [e], index, Marked(outbox, last))
    ensures Marked(outbox, last) < |outbox| ==> (outbox + [e])[..Marked(outbox, last) + 1] == outbox[..Marked(outbox, last) + 1]
    ensures LastSequence(outbox + [e]) == e.sequence
  {
    var d := Marked(outbox, last);
    assert (outbox + [e])[..|outbox|] == outbox;
    assert (outbox + [e])[..d] == outbox[..d];
    assert d < |outbox| ==> (outbox + [e])[..d + 1] == outbox[..d + 1];
  }

  lemma IndexApplyStep(s: State, answered: bool)
    requires OutboxOk(s) && IndexOk(s)
    ensures IndexOk(Step(s, DrainApply(answered)))
  {
    if s.drainer.Claimed? {
      IndexApplied(s.base, s.outbox, s.index, s.lastSequence, s.drainer.event);
      assert Step(s, DrainApply(answered)) == if answered
        then s.(index := ApplyEvent(s.index, s.drainer.event), drainer := Applied(s.drainer.event)) else s.(drainer := Polling);
    }
  }

  lemma IndexApplied(base: map<ShowId, Show>, outbox: seq<OutboxEvent>, index: map<ShowId, SearchDoc>, last: nat, e: OutboxEvent)
    requires IndexIs(base, outbox, index, last, Claimed(e))
    ensures IndexIs(base, outbox, ApplyEvent(index, e), last, Applied(e)) && IndexIs(base, outbox, index, last, Polling)
  {
    FoldApplied(base, outbox, index, Marked(outbox, last));
  }

  /** Applying the event, for the first or the second time, completes its fold. */
  lemma FoldApplied(base: map<ShowId, Show>, outbox: seq<OutboxEvent>, index: map<ShowId, SearchDoc>, d: nat)
    requires d < |outbox| && FoldedTo(base, outbox, index, d)
    ensures ApplyEvent(index, outbox[d]) == Fold(Projection(base), outbox[..d + 1])
    ensures FoldedTo(base, outbox, ApplyEvent(index, outbox[d]), d)
  {
    FoldOneMore(Projection(base), outbox, d);
    ReplayHarmless(Fold(Projection(base), outbox[..d]), outbox[d]);
  }

  lemma IndexMarkStep(s: State)
    requires OutboxOk(s) && IndexOk(s)
    ensures IndexOk(Step(s, DrainMark))
  {
    if s.drainer.Applied? {
      IndexMarked(s.base, s.outbox, s.index, s.lastSequence, s.drainer.event);
      assert Step(s, DrainMark) == s.(lastSequence := s.drainer.event.sequence, drainer := Polling);
    }
  }

  lemma IndexMarked(base: map<ShowId, Show>, outbox: seq<OutboxEvent>, index: map<ShowId, SearchDoc>, last: nat, e: OutboxEvent)
    requires Rising(outbox) && IndexIs(base, outbox, index, last, Applied(e))
    ensures IndexIs(base, outbox, index, e.sequence, Polling)
  {
    var d := Marked(outbox, last);
    MarkedUnique(outbox, outbox[d].sequence, d + 1);
  }

  lemma IndexClaimStep(s: State)
    requires OutboxOk(s) && IndexOk(s)
    ensures IndexOk(Step(s, DrainClaim))
  {
    ClaimIsNext(s.outbox, s.lastSequence);
  }

  predicate SameIndexing(s: State, s': State) {
    && s'.base == s.base && s'.outbox == s.outbox && s'.index == s.index && s'.lastSequence == s.lastSequence
    && (s'.drainer == s.drainer || s'.drainer == Polling)
  }

  lemma OthersLeaveIndex(s: State, ev: Event)
    requires !ev.WorkerInsert? && !ev.DrainClaim? && !ev.DrainApply? && !ev.DrainMark?
    ensures SameIndexing(s, Step(s, ev))
  {
  }

  lemma SameIndexOk(s: State, s': State)
    requires IndexOk(s) && SameIndexing(s, s')
    ensures IndexOk(s')
  {
  }

  lemma IndexStep(s: State, ev: Event)
    requires OutboxOk(s) && WorkerOk(s) && IndexOk(s)
    ensures IndexOk(Step(s, ev))
  {
    if ev.WorkerInsert? {
      IndexInsertStep(s);
    } else if ev.DrainClaim? {
      IndexClaimStep(s);
    } else if ev.DrainApply? {
      IndexApplyStep(s, ev.answered);
    } else if ev.DrainMark? {
      IndexMarkStep(s);
    } else {
      OthersLeaveIndex(s, ev);
      SameIndexOk(s, Step(s, ev));
    }
  }

  lemma {:induction false} IndexInRuns(base: map<ShowId, Show>, from: Option<nat>, run: seq<Event>)
    requires Guarded(base, from, run)
    ensures IndexOk(Exec(Init(base, from), run))
  {
    if run != [] {
      var before := run[..|run| - 1];
      GuardedBefore(base, from, run, |run| - 1);
      IndexInRuns(base, from, before);
      OutboxInRuns(base, from, before);
      IndexStep(Exec(Init(base, from), before), run[|run| - 1]);
    }
  }

  // ---------------------------------------------------------------- theorems

  /**
   * In every run from a stored checkpoint, through any crashes: the outbox is the
   * logged changes up to the checkpoint or one further, in order, each once, with
   * strictly rising sequence numbers, each as it stood at some moment after it was made.
   * Without a stored checkpoint the same holds of every run that is never unguarded.
   */
  lemma OutboxIsTheLog(base: map<ShowId, Show>, from: Option<nat>, run: seq<Event>)
    requires Guarded(base, from, run)
    ensures var s := Exec(Init(base, from), run);
            && (from.Some? ==> s.checkpoint.Some?)
            && (s.checkpoint.Some? ==> s.checkpoint.value <= |s.outbox| <= s.checkpoint.value + 1 && s.checkpoint.value <= |s.log|)
            && |s.outbox| <= |s.log|
            && (forall k :: 0 <= k < |s.outbox| ==> s.outbox[k].draft.token == k && Faithful(base, s.log, s.outbox[k].draft))
            && Rising(s.outbox)
  {
    OutboxInRuns(base, from, run);
    OutboxWithinLog(Exec(Init(base, from), run));
  }

  /** And the index is always the fold of the marked events or of one more. */
  lemma IndexIsTheFold(base: map<ShowId, Show>, from: Option<nat>, run: seq<Event>)
    requires Guarded(base, from, run)
    ensures var s := Exec(Init(base, from), run);
            var d := Marked(s.outbox, s.lastSequence);
            || s.index == Fold(Projection(base), s.outbox[..d])
            || (d < |s.outbox| && s.index == Fold(Projection(base), s.outbox[..d + 1]))
  {
    IndexInRuns(base, from, run);
    OutboxInRuns(base, from, run);
  }

  predicate Touches(log: seq<Change>, from: nat, id: ShowId) {
    exists k :: from <= k < |log| && log[k].id == id
  }

  lemma {:induction false} SourceSettled(base: map<ShowId, Show>, log: seq<Change>, n: nat, id: ShowId)
    requires n <= |log| && !Touches(log, n, id)
    ensures id in Source(base, log) <==> id in Source(base, log[..n])
    ensures id in Source(base, log) ==> Source(base, log)[id] == Source(base, log[..n])[id]
    decreases |log|
  {
    if n < |log| {
      var m := |log| - 1;
      assert log[m].id != id;
      assert log[..m][..n] == log[..n];
      assert !Touches(log[..m], n, id) by {
        assert forall k :: n <= k < m ==> log[..m][k] == log[k];
      }
      SourceSettled(base, log[..m], n, id);
    } else {
      assert log[..n] == log;
    }
  }

  /** The index entry for one show. */
  predicate SameAt(index: map<ShowId, SearchDoc>, other: map<ShowId, SearchDoc>, id: ShowId) {
    (id in index <==> id in other) && (id in index ==> index[id] == other[id])
  }

  /** A faithful event of a show's last change leaves the index right for that show,
      although an update carries the document of a later moment. */
  lemma LastChangeSettles(base: map<ShowId, Show>, log: seq<Change>, d: Draft, index: map<ShowId, SearchDoc>, sequence: nat)
    requires Faithful(base, log, d) && !Touches(log, d.token + 1, d.id)
    ensures SameAt(ApplyEvent(index, OutboxEvent(sequence, d)), Projection(Source(base, log)), d.id)
  {
    var k := d.token;
    var n :| k < n <= |log| && Materialise(base, log[..n], k) == Some(d.operation);
    assert !Touches(log, n, d.id);
    SourceSettled(base, log, n, d.id);
    assert log[..k + 1][..k] == log[..k] && log[..k + 1][k] == log[k];
    SourceSettled(base, log, k + 1, d.id);
    assert log[..n][k] == log[k];
  }

  lemma {:induction false} FoldSettles(base: map<ShowId, Show>, log: seq<Change>, outbox: seq<OutboxEvent>, id: ShowId)
    requires |outbox| <= |log| && !Touches(log, |outbox|, id)
    requires forall k :: 0 <= k < |outbox| ==> outbox[k].draft.token == k && Faithful(base, log, outbox[k].draft)
    ensures SameAt(Fold(Projection(base), outbox), Projection(Source(base, log)), id)
    decreases |outbox|
  {
    if outbox == [] {
      SourceSettled(base, log, 0, id);
      assert log[..0] == [];
    } else {
      var n := |outbox| - 1;
      var e := outbox[n];
      if e.draft.id == id {
        LastChangeSettles(base, log, e.draft, Fold(Projection(base), outbox[..n]), e.sequence);
      } else {
        assert log[n].id != id;
        assert !Touches(log, n, id);
        FoldSettles(base, log, outbox[..n], id);
      }
    }
  }

  /** Nothing left to record and nothing left to mark. */
  predicate Quiet(s: State) {
    s.checkpoint == Some(|s.log|) && Marked(s.outbox, s.lastSequence) == |s.outbox|
  }

  /** When both processes have caught up, the index is exactly the search projection of the source. */
  lemma QuietIndexIsProjection(base: map<ShowId, Show>, from: Option<nat>, run: seq<Event>)
    requires Guarded(base, from, run) && Quiet(Exec(Init(base, from), run))
    ensures var s := Exec(Init(base, from), run);
            s.index == Projection(Source(base, s.log))
  {
    var s := Exec(Init(base, from), run);
    OutboxInRuns(base, from, run);
    IndexInRuns(base, from, run);
    OutboxWithinLog(s);
    assert s.outbox[..|s.outbox|] == s.outbox;
    forall id
      ensures SameAt(s.index, Projection(Source(base, s.log)), id)
    {
      FoldSettles(base, s.log, s.outbox, id);
    }
    SameEverywhere(s.index, Projection(Source(base, s.log)));
  }

  lemma OutboxWithinLog(s: State)
    requires OutboxOk(s)
    ensures |s.outbox| <= |s.log|
  {
    if s.outbox != [] {
      assert Faithful(s.base, s.log, s.outbox[|s.outbox| - 1].draft);
    }
  }

  lemma SameEverywhere(a: map<ShowId, SearchDoc>, b: map<ShowId, SearchDoc>)
    requires forall id :: SameAt(a, b, id)
    ensures a == b
  {
    forall id
      ensures id in a <==> id in b
      ensures id in a ==> a[id] == b[id]
    {
      assert SameAt(a, b, id);
    }
  }

  /** Field by field: what a settled index holds of each show, and of which shows. */
  lemma IndexedFields(base: map<ShowId, Show>, from: Option<nat>, run: seq<Event>, id: ShowId)
    requires Guarded(base, from, run) && Quiet(Exec(Init(base, from), run))
    ensures var s := Exec(Init(base, from), run);
            var shows := Source(base, s.log);
            && (id in s.index <==> id in shows && shows[id].deletedAt == None && shows[id].title.Some? && shows[id].title.value != "")
            && (id in s.index ==>
                  var doc, show := s.index[id], shows[id];
                  && doc.id == id && Some(doc.title) == show.title && doc.description == show.description
                  && doc.tags == show.tags && doc.categoryIds == show.categoryIds && doc.showType == show.showType
                  && doc.city == show.city && doc.venue == show.venue
                  && doc.thumbnailUrl == show.thumbnailUrl && doc.posterUrl == show.posterUrl)
  {
    QuietIndexIsProjection(base, from, run);
    ProjectionFields(Source(base, Exec(Init(base, from), run).log), id);
  }

  lemma ProjectionFields(shows: map<ShowId, Show>, id: ShowId)
    ensures id in Projection(shows) <==> id in shows && shows[id].deletedAt == None && shows[id].title.Some? && shows[id].title.value != ""
    ensures id in Projection(shows) ==>
              var doc, show := Projection(shows)[id], shows[id];
              && doc.id == id && Some(doc.title) == show.title && doc.description == show.description
              && doc.tags == show.tags && doc.categoryIds == show.categoryIds && doc.showType == show.showType
              && doc.city == show.city && doc.venue == show.venue
              && doc.thumbnailUrl == show.thumbnailUrl && doc.posterUrl == show.posterUrl
  {
  }

  // ----------------------------------------------------------------- progress

  /** The document is one the index shows or one it has to drop. */
  predicate Indexable(show: Show) {
    show.deletedAt.Some? || Searchable(show)
  }

  /** What the data must be for change k to yield an event when it is read at the end of this log:
      for an update, the show must still be there, as it is by then. */
  predicate Convertible(base: map<ShowId, Show>, log: seq<Change>, k: nat)
    requires k < |log|
  {
    match log[k]
    case Delete(_) => true
    case Insert(_, doc) => Indexable(doc)
    case Replace(_, doc) => Indexable(doc)
    case Update(id, _) => id in Source(base, log) && Indexable(Source(base, log)[id])
  }

  lemma UpdateLostIff(base: map<ShowId, Show>, log: seq<Change>, k: nat)
    requires k < |log| && log[k].Update?
    ensures Materialise(base, log, k).None? <==>
            log[k].id !in Source(base, log) || !Indexable(Source(base, log)[log[k].id])
  {
  }

  lemma MaterialisesIff(base: map<ShowId, Show>, log: seq<Change>, k: nat)
    requires k < |log|
    ensures Materialise(base, log, k).Some? <==> Convertible(base, log, k)
  {
    if log[k].Update? {
      UpdateLostIff(base, log, k);
    }
  }

  /** The worker reads a change and records it, undisturbed. */
  function ReadAndRecord(s: State): State {
    RecordSteps(Step(s, WorkerRead))
  }

  /** It gets past a change exactly when the change's document, which for an update is the one the
      show has now, is there and is searchable or soft-deleted. */
  predicate GetsPastIffConvertible(s: State) {
    s.worker.Streaming? && s.worker.next < |s.log| ==>
      (ReadAndRecord(s).checkpoint == Some(s.worker.next + 1) <==> Convertible(s.base, s.log, s.worker.next))
  }

  /** So it is for a worker that waits at a change, in every run. */
  lemma RecordsIff(base: map<ShowId, Show>, from: Option<nat>, run: seq<Event>)
    requires Guarded(base, from, run)
    ensures GetsPastIffConvertible(Exec(Init(base, from), run))
  {
    OutboxInRuns(base, from, run);
    GetsPast(Exec(Init(base, from), run));
  }

  lemma GetsPast(s: State)
    requires WorkerOk(s)
    ensures GetsPastIffConvertible(s)
  {
    if s.worker.Streaming? && s.worker.next < |s.log| {
      MaterialisesIff(s.base, s.log, s.worker.next);
      RecordSequence(s);
    }
  }

  lemma RecordSequence(s: State)
    requires WorkerOk(s) && s.worker.Streaming? && s.worker.next < |s.log|
    ensures ReadAndRecord(s).checkpoint == Some(s.worker.next + 1) <==> Materialise(s.base, s.log, s.worker.next).Some?
  {
    var s1 := Step(s, WorkerRead);
    var s2 := Step(s1, WorkerFind);
    var s3 := Step(s2, WorkerAllocate);
    var s4 := Step(s3, WorkerInsert);
    assert s4.checkpoint == s.checkpoint;
    if Materialise(s.base, s.log, s.worker.next).Some? {
      assert s4.worker == Checkpointing(s1.worker.draft);
    } else {
      assert s4.worker == Down;
    }
  }

  /** The worker has not got hold of change k. */
  predicate NoDraftFor(s: State, k: nat) {
    match s.worker
    case Finding(d) => d.token != k
    case Allocating(d) => d.token != k
    case Inserting(d, _) => d.token != k
    case Checkpointing(d) => d.token != k
    case _ => true
  }

  ghost predicate HeldBack(s: State, k: nat) {
    OutboxOk(s) && WorkerOk(s) && |s.outbox| <= k < |s.log| && NoDraftFor(s, k)
  }

  lemma HeldBackStep(s: State, ev: Event, k: nat)
    requires HeldBack(s, k) && !Unguarded(s) && Materialise(s.base, s.log, k).None?
    ensures HeldBack(Step(s, ev), k)
  {
    OutboxStep(s, ev);
    if ev.WorkerInsert? && s.worker.Inserting? {
      InsertAppends(s);
    }
  }

  lemma {:induction false} LogGrows(s: State, more: seq<Event>)
    ensures |s.log| <= |Exec(s, more).log| && Exec(s, more).log[..|s.log|] == s.log && Exec(s, more).base == s.base
  {
    if more != [] {
      LogGrows(s, more[..|more| - 1]);
      var t := Exec(s, more[..|more| - 1]);
      assert Step(t, more[|more| - 1]).log[..|t.log|] == t.log;
      assert Step(t, more[|more| - 1]).log[..|t.log|][..|s.log|] == Step(t, more[|more| - 1]).log[..|s.log|];
    }
  }

  /** The change yields no event at any moment from the state on to the end of the continuation. */
  ghost predicate NeverAgain(s: State, more: seq<Event>, k: nat)
    requires k < |s.log|
  {
    forall m: nat :: m <= |more| ==> LostAfter(s, more, m, k)
  }

  predicate LostAfter(s: State, more: seq<Event>, m: nat, k: nat) {
    m <= |more| && LostNow(Exec(s, more[..m]), k)
  }

  predicate LostNow(s: State, k: nat) {
    k < |s.log| && !Convertible(s.base, s.log, k)
  }

  lemma PrefixHolds(s: State, more: seq<Event>, m: nat, k: nat)
    requires m <= |more| && k < |s.log| && GuardedOn(s, more) && NeverAgain(s, more, k)
    ensures GuardedOn(s, more[..m]) && NeverAgain(s, more[..m], k)
    ensures !Unguarded(Exec(s, more[..m])) && LostNow(Exec(s, more[..m]), k)
  {
    forall n: nat | n <= m
      ensures !UnguardedAfter(s, more[..m], n) && LostAfter(s, more[..m], n, k)
    {
      assert more[..m][..n] == more[..n];
      assert !UnguardedAfter(s, more, n) && LostAfter(s, more, n, k);
    }
    assert !UnguardedAfter(s, more, m) && LostAfter(s, more, m, k);
  }

  lemma {:induction false} HeldBackOn(s: State, more: seq<Event>, k: nat)
    requires HeldBack(s, k) && GuardedOn(s, more) && NeverAgain(s, more, k)
    ensures HeldBack(Exec(s, more), k)
  {
    if more != [] {
      var m := |more| - 1;
      var t := Exec(s, more[..m]);
      PrefixHolds(s, more, m, k);
      HeldBackOn(s, more[..m], k);
      MaterialisesIff(t.base, t.log, k);
      HeldBackStep(t, more[m], k);
    }
  }

  lemma GuardedAfter(base: map<ShowId, Show>, from: Option<nat>, run: seq<Event>, more: seq<Event>)
    requires Guarded(base, from, run + more)
    ensures GuardedOn(Exec(Init(base, from), run), more)
  {
    forall m: nat | m <= |more|
      ensures !UnguardedAfter(Exec(Init(base, from), run), more, m)
    {
      GuardedLater(base, from, run, more, m);
    }
  }

  lemma GuardedLater(base: map<ShowId, Show>, from: Option<nat>, run: seq<Event>, more: seq<Event>, m: nat)
    requires Guarded(base, from, run + more) && m <= |more|
    ensures !UnguardedAfter(Exec(Init(base, from), run), more, m)
  {
    GuardedPart(base, from, run, more, m);
    GuardedSplit(Init(base, from), run, more, m);
  }

  predicate EndsUnguarded(s: State, run: seq<Event>) {
    Unguarded(Exec(s, run))
  }

  lemma GuardedPart(base: map<ShowId, Show>, from: Option<nat>, run: seq<Event>, more: seq<Event>, m: nat)
    requires Guarded(base, from, run + more) && m <= |more|
    ensures !EndsUnguarded(Init(base, from), run + more[..m])
  {
    assert (run + more)[..|run| + m] == run + more[..m];
    GuardedBefore(base, from, run + more, |run| + m);
    GuardedNow(base, from, run + more[..m]);
  }

  lemma GuardedSplit(s: State, run: seq<Event>, more: seq<Event>, m: nat)
    requires m <= |more| && !EndsUnguarded(s, run + more[..m])
    ensures !UnguardedAfter(Exec(s, run), more, m)
  {
    ExecConcat(s, run, more[..m]);
  }

  lemma GuardedNow(base: map<ShowId, Show>, from: Option<nat>, run: seq<Event>)
    requires Guarded(base, from, run)
    ensures !EndsUnguarded(Init(base, from), run)
  {
    if from.None? {
      GuardedBefore(base, from, run, |run|);
      assert run[..|run|] == run;
    } else {
      CheckpointStays(Init(base, from), run);
    }
  }

  lemma {:induction false} CheckpointStays(s: State, run: seq<Event>)
    requires s.checkpoint.Some?
    ensures Exec(s, run).checkpoint.Some?
  {
    if run != [] {
      CheckpointStays(s, run[..|run| - 1]);
      StepKeeps(Exec(s, run[..|run| - 1]), run[|run| - 1]);
    }
  }

  /** From any reachable state in which change k is unrecorded and not in the worker's hands: while
      it is not convertible, whatever it was when it was made, nothing gets past it. */
  lemma StuckAtUnmaterialised(base: map<ShowId, Show>, from: Option<nat>, run: seq<Event>, more: seq<Event>, k: nat)
    requires Guarded(base, from, run + more)
    requires var s := Exec(Init(base, from), run);
             |s.outbox| <= k < |s.log| && NoDraftFor(s, k) && NeverAgain(s, more, k)
    ensures var t := Exec(Exec(Init(base, from), run), more);
            |t.outbox| <= k && (t.checkpoint.Some? ==> t.checkpoint.value <= k)
  {
    assert (run + more)[..|run|] == run;
    GuardedBefore(base, from, run + more, |run|);
    OutboxInRuns(base, from, run);
    GuardedAfter(base, from, run, more);
    HeldBackOn(Exec(Init(base, from), run), more, k);
  }

  /** No change after the first n puts the show back. */
  predicate NotPutBack(log: seq<Change>, n: nat, id: ShowId) {
    forall j :: n <= j < |log| && log[j].id == id ==> log[j].Delete?
  }

  lemma {:induction false} StaysGone(base: map<ShowId, Show>, log: seq<Change>, n: nat, id: ShowId)
    requires n <= |log| && id !in Source(base, log[..n]) && NotPutBack(log, n, id)
    ensures id !in Source(base, log)
  {
    if n == |log| {
      assert log[..n] == log;
    } else {
      var m := |log| - 1;
      assert log[..m][..n] == log[..n];
      assert forall j :: n <= j < m ==> log[..m][j] == log[j];
      StaysGone(base, log[..m], n, id);
      assert log[m].id == id ==> log[m].Delete?;
    }
  }

  /** So an update whose show is deleted before the worker reads it stops the worker until the show
      is put back. */
  lemma DeletedUpdateSticks(base: map<ShowId, Show>, from: Option<nat>, run: seq<Event>, more: seq<Event>, k: nat)
    requires Guarded(base, from, run + more)
    requires var s := Exec(Init(base, from), run);
             && |s.outbox| <= k < |s.log| && NoDraftFor(s, k)
             && s.log[k].Update? && s.log[k].id !in Source(base, s.log)
             && NotPutBack(Exec(s, more).log, |s.log|, s.log[k].id)
    ensures var t := Exec(Exec(Init(base, from), run), more);
            |t.outbox| <= k && (t.checkpoint.Some? ==> t.checkpoint.value <= k)
  {
    var s := Exec(Init(base, from), run);
    LogGrows(Init(base, from), run);
    forall m: nat | m <= |more|
      ensures LostAfter(s, more, m, k)
    {
      GoneLater(s, more, m, k);
    }
    StuckAtUnmaterialised(base, from, run, more, k);
  }

  lemma GoneLater(s: State, more: seq<Event>, m: nat, k: nat)
    requires m <= |more| && k < |s.log| && s.log[k].Update? && s.log[k].id !in Source(s.base, s.log)
    requires NotPutBack(Exec(s, more).log, |s.log|, s.log[k].id)
    ensures LostNow(Exec(s, more[..m]), k)
  {
    var t, id := Exec(s, more[..m]), s.log[k].id;
    LogGrows(s, more[..m]);
    LogGrows(t, more[m..]);
    ExecConcat(s, more[..m], more[m..]);
    assert more[..m] + more[m..] == more;
    assert t.log[k] == s.log[k];
    assert forall j :: |s.log| <= j < |t.log| ==> t.log[j] == Exec(s, more).log[j];
    StaysGone(s.base, t.log, |s.log|, id);
  }

  /** A change that yields no event from the moment it is made is never recorded in any run. */
  lemma BadFromBirthSticks(base: map<ShowId, Show>, run: seq<Event>, k: nat)
    requires var log := Exec(Init(base, Some(0)), run).log;
             k < |log| && forall n :: k < n <= |log| ==> Materialise(base, log[..n], k).None?
    ensures var s := Exec(Init(base, Some(0)), run);
            |s.outbox| <= k && s.checkpoint.Some? && s.checkpoint.value <= k
  {
    OutboxInRuns(base, Some(0), run);
    var s := Exec(Init(base, Some(0)), run);
    assert |s.outbox| > k ==> Faithful(base, s.log, s.outbox[k].draft);
  }

  /** For an inserted or replaced show the outcome is fixed by its own document. */
  lemma UntitledInsertSticks(base: map<ShowId, Show>, run: seq<Event>, k: nat)
    requires var log := Exec(Init(base, Some(0)), run).log;
             k < |log| && (log[k].Insert? || log[k].Replace?) && log[k].doc.deletedAt.None? && !Searchable(log[k].doc)
    ensures var s := Exec(Init(base, Some(0)), run);
            |s.outbox| <= k && s.checkpoint.Some? && s.checkpoint.value <= k
  {
    BadFromBirthSticks(base, run, k);
  }

  /** A worker that stops forgets its draft, a drainer its claim; stores and log stay. */
  lemma CrashesForget(s: State)
    ensures Step(s, WorkerCrash) == s.(worker := Down) && Step(s, DrainCrash) == s.(drainer := Polling)
  {
  }

  // ------------------------------------------------- without a stored checkpoint

  /** The worker is set to leave change k out: the change is logged and unrecorded, and neither
      the checkpoint nor the worker's place is before it. */
  ghost predicate Lost(s: State, k: nat) {
    && k < |s.log| && !HasToken(s.outbox, k)
    && (s.checkpoint.Some? ==> k < s.checkpoint.value)
    && match s.worker
       case Down => true
       case Streaming(next) => k < next
       case Finding(d) => k < d.token
       case Allocating(d) => k < d.token
       case Inserting(d, _) => k < d.token
       case Checkpointing(d) => k < d.token
  }

  /** A starting worker skips a change that is not recorded if and only if there is no stored
      checkpoint and such a change. */
  lemma StartSkipsIff(s: State)
    requires OutboxOk(s) && s.worker.Down? && (s.checkpoint.Some? ==> s.checkpoint.value <= |s.outbox|)
    ensures (exists k: nat :: k < Step(s, WorkerStart).worker.next && k < |s.log| && !HasToken(s.outbox, k))
            <==> s.checkpoint.None? && |s.outbox| < |s.log|
  {
    forall k: nat
      ensures HasToken(s.outbox, k) <==> k < |s.outbox|
    {
      TokensAre(s, k);
    }
    if s.checkpoint.None? && |s.outbox| < |s.log| {
      var k: nat := |s.outbox|;
      assert k < Step(s, WorkerStart).worker.next && k < |s.log| && !HasToken(s.outbox, k);
    }
  }

  lemma LostStep(s: State, ev: Event, k: nat)
    requires Lost(s, k)
    ensures Lost(Step(s, ev), k)
  {
  }

  lemma {:induction false} LostForever(s: State, more: seq<Event>, k: nat)
    requires Lost(s, k)
    ensures Lost(Exec(s, more), k)
  {
    if more != [] {
      LostForever(s, more[..|more| - 1], k);
      LostStep(Exec(s, more[..|more| - 1]), more[|more| - 1], k);
    }
  }

  lemma UnguardedLoses(s: State)
    requires OutboxOk(s) && Unguarded(s)
    ensures Lost(s, |s.outbox|)
  {
    TokensAre(s, |s.outbox|);
  }

  lemma GuardedLosesNothing(s: State, k: nat)
    requires OutboxOk(s) && WorkerOk(s) && !Unguarded(s)
    ensures !Lost(s, k)
  {
    TokensAre(s, k);
  }

  lemma {:induction false} ExecConcat(s: State, a: seq<Event>, b: seq<Event>)
    ensures Exec(s, a + b) == Exec(Exec(s, a), b)
  {
    if b == [] {
      assert a + b == a;
    } else {
      assert (a + b)[..|a + b| - 1] == a + b[..|b| - 1];
      ExecConcat(s, a, b[..|b| - 1]);
    }
  }

  /** From the first unguarded moment on a change is lost. */
  lemma {:induction false} UnguardedRunLoses(base: map<ShowId, Show>, run: seq<Event>, n: nat) returns (k: nat)
    requires n <= |run| && Unguarded(Exec(Init(base, None), run[..n]))
    ensures Lost(Exec(Init(base, None), run), k)
    decreases n
  {
    if m: nat :| m < n && UnguardedAfter(Init(base, None), run, m) {
      k := UnguardedRunLoses(base, run, m);
    } else {
      k := |Exec(Init(base, None), run[..n]).outbox|;
      FirstUnguardedLoses(base, run, n);
    }
  }

  lemma FirstUnguardedLoses(base: map<ShowId, Show>, run: seq<Event>, n: nat)
    requires n <= |run| && Unguarded(Exec(Init(base, None), run[..n]))
    requires forall m: nat :: m < n ==> !UnguardedAfter(Init(base, None), run, m)
    ensures Lost(Exec(Init(base, None), run), |Exec(Init(base, None), run[..n]).outbox|)
  {
    var s := Exec(Init(base, None), run[..n]);
    OutboxBeforeUnguarded(base, run, n);
    UnguardedLoses(s);
    LostForever(s, run[n..], |s.outbox|);
    ExecConcat(Init(base, None), run[..n], run[n..]);
    assert run[..n] + run[n..] == run;
  }

  lemma OutboxBeforeUnguarded(base: map<ShowId, Show>, run: seq<Event>, n: nat)
    requires n <= |run| && forall m: nat :: m < n ==> !UnguardedAfter(Init(base, None), run, m)
    ensures OutboxOk(Exec(Init(base, None), run[..n]))
  {
    if n > 0 {
      var before := run[..n - 1];
      forall m: nat | m <= n - 1
        ensures !UnguardedAfter(Init(base, None), before, m)
      {
        assert before[..m] == run[..m];
        assert !UnguardedAfter(Init(base, None), run, m);
      }
      OutboxInRuns(base, None, before);
      GuardedNow(base, None, before);
      assert run[..n][..n - 1] == before;
      OutboxStep(Exec(Init(base, None), before), run[n - 1]);
    }
  }

  ghost predicate LosesSome(s: State) {
    exists k: nat :: Lost(s, k)
  }

  lemma GuardedRunLosesNothing(base: map<ShowId, Show>, run: seq<Event>)
    requires Guarded(base, None, run)
    ensures !LosesSome(Exec(Init(base, None), run))
  {
    var s := Exec(Init(base, None), run);
    OutboxInRuns(base, None, run);
    GuardedBefore(base, None, run, |run|);
    assert run[..|run|] == run;
    forall k: nat ensures !Lost(s, k) { GuardedLosesNothing(s, k); }
  }

  lemma UnguardedRunLosesSome(base: map<ShowId, Show>, run: seq<Event>, n: nat)
    requires n <= |run| && Unguarded(Exec(Init(base, None), run[..n]))
    ensures LosesSome(Exec(Init(base, None), run))
  {
    var k := UnguardedRunLoses(base, run, n);
  }

  /** Without a stored checkpoint a run loses a change, for good, if and only if at some moment the
      worker is down, has stored no checkpoint, and has left a change unrecorded. */
  lemma LosesIff(base: map<ShowId, Show>, run: seq<Event>)
    ensures LosesSome(Exec(Init(base, None), run)) <==> !Guarded(base, None, run)
  {
    if Guarded(base, None, run) {
      GuardedRunLosesNothing(base, run);
    } else {
      var n: nat :| n <= |run| && UnguardedAfter(Init(base, None), run, n);
      UnguardedRunLosesSome(base, run, n);
    }
  }

  /** A run that loses one: restarted before its first checkpoint, the worker begins at the
      present, and the index misses the show. */
  lemma NoCheckpointSkips(doc: Show)
    requires Searchable(doc)
    ensures var run := [WorkerStart, Write(Insert(1, doc)), WorkerRead, WorkerCrash, WorkerStart];
            var s := Exec(Init(map[], None), run);
            && s.worker == Streaming(|s.log|) && s.outbox == []
            && s.index != Projection(Source(map[], s.log))
  {
    var run := [WorkerStart, Write(Insert(1, doc)), WorkerRead, WorkerCrash, WorkerStart];
    ExecFive(Init(map[], None), run);
    SkippedByRestart(doc);
    InsertedIsProjected(doc);
  }

  lemma SkippedByRestart(doc: Show)
    requires Searchable(doc)
    ensures Step(Step(Step(Step(Step(Init(map[], None), WorkerStart), Write(Insert(1, doc))), WorkerRead), WorkerCrash), WorkerStart)
         == State(map[], [Insert(1, doc)], None, 0, [], Streaming(1), Projection(map[]), 0, Polling)
  {
    var s2 := Step(Step(Init(map[], None), WorkerStart), Write(Insert(1, doc)));
    assert s2 == State(map[], [Insert(1, doc)], None, 0, [], Streaming(0), Projection(map[]), 0, Polling);
  }

  lemma InsertedIsProjected(doc: Show)
    requires Searchable(doc)
    ensures Projection(map[]) != Projection(Source(map[], [Insert(1, doc)]))
  {
    assert [Insert(1, doc)][..0] == [];
    assert Source(map[], [Insert(1, doc)]) == map[1 := doc];
    assert 1 in Projection(map[1 := doc]) && 1 !in Projection(map[]);
  }

  lemma ExecFive(s: State, run: seq<Event>)
    requires |run| == 5
    ensures Exec(s, run) == Step(Step(Step(Step(Step(s, run[0]), run[1]), run[2]), run[3]), run[4])
  {
    assert run[..4][..3] == run[..3] && run[..3][..2] == run[..2] && run[..2][..1] == run[..1] && run[..1][..0] == [];
    assert Exec(s, run[..1]) == Step(s, run[0]);
    assert Exec(s, run[..2]) == Step(Exec(s, run[..1]), run[1]);
    assert Exec(s, run[..3]) == Step(Exec(s, run[..2]), run[2]);
  }

  // ----------------------------------------------------------------- the code

  /** The steps of `record_mongo_outbox_event` without a crash. */
  function RecordSteps(s: State): State {
    Step(Step(Step(Step(s, WorkerFind), WorkerAllocate), WorkerInsert), WorkerCheckpoint)
  }

  function DrainSteps(s: State, answered: bool): State {
    Step(Step(Step(s, DrainClaim), DrainApply(answered)), DrainMark)
  }

  class Stores {
    const base: map<ShowId, Show>
    var log: seq<Change>
    var checkpoint: Option<nat>
    var counter: nat
    var outbox: seq<OutboxEvent>
    var index: map<ShowId, SearchDoc>
    var lastSequence: nat

    ghost function View(worker: WorkerPc): State
      reads this
    {
      State(base, log, checkpoint, counter, outbox, worker, index, lastSequence, Polling)
    }

    constructor (base: map<ShowId, Show>)
      ensures View(Down) == Init(base, Some(0)) && this.base == base
    {
      this.base := base;
      log, checkpoint, counter, outbox := [], Some(0), 0, [];
      index, lastSequence := Projection(base), 0;
    }

    method RecordOutboxEvent(draft: Draft)
      modifies this`checkpoint, this`counter, this`outbox
      ensures View(Streaming(draft.token + 1)) == RecordSteps(old(View(Finding(draft))))
    {
      if !HasToken(outbox, draft.token) {
        counter := counter + 1;
        if !HasSequence(outbox, counter) {
          outbox := outbox + [OutboxEvent(counter, draft)];
        }
      }
      checkpoint := Some(draft.token + 1);
    }

    /** The stream loop from a stored checkpoint: it stops at the end of the log or at the
        first change that does not materialise, with everything before it recorded. */
    method WatchStream() returns (next: nat)
      requires OutboxOk(View(Down)) && WorkerOk(View(Down)) && checkpoint.Some?
      modifies this`checkpoint, this`counter, this`outbox
      ensures OutboxOk(View(Streaming(next))) && WorkerOk(View(Streaming(next)))
      ensures next == |log| || (next < |log| && Materialise(base, log, next).None?)
      ensures old(checkpoint).value <= next
    {
      next := checkpoint.value;
      while next < |log|
        invariant OutboxOk(View(Streaming(next))) && WorkerOk(View(Streaming(next)))
        invariant checkpoint.Some? && old(checkpoint).value <= next <= |log|
      {
        var operation := Materialise(base, log, next);
        if operation.None? {
          return;
        }
        var draft := Draft(next, log[next].id, operation.value);
        ghost var s := View(Streaming(next));
        assert Step(s, WorkerRead) == View(Finding(draft));
        ReadStep(s);
        RecordKeeps(View(Finding(draft)));
        RecordOutboxEvent(draft);
        next := next + 1;
      }
    }

    /** One turn of the drain loop. */
    method DrainOnce(answered: bool) returns (claimed: bool)
      modifies this`index, this`lastSequence
      ensures answered || !claimed ==> View(Down) == DrainSteps(old(View(Down)), answered)
      ensures !answered ==> View(Down) == old(View(Down))
      ensures claimed <==> ClaimNext(outbox, old(lastSequence)).Some?
    {
      var next := ClaimNext(outbox, lastSequence);
      if next.None? {
        return false;
      }
      if answered {
        index := ApplyEvent(index, next.value);
        lastSequence := next.value.sequence;
      }
      return true;
    }

    /** With the index answering, the loop comes to rest with every event marked. */
    method DrainAll()
      requires Drainable(View(Down))
      modifies this`index, this`lastSequence
      ensures Drainable(View(Down)) && Unmarked(View(Down)) == 0
    {
      var more := true;
      while more
        invariant Drainable(View(Down))
        invariant !more ==> Unmarked(View(Down)) == 0
        decreases Unmarked(View(Down)), more
      {
        ghost var s := View(Down);
        DrainTurn(s);
        more := DrainOnce(true);
        assert View(Down) == DrainSteps(s, true);
      }
    }
  }

  lemma RecordKeeps(s: State)
    requires OutboxOk(s) && WorkerOk(s) && s.worker.Finding?
    ensures OutboxOk(RecordSteps(s)) && WorkerOk(RecordSteps(s))
    ensures RecordSteps(s).worker == Streaming(s.worker.draft.token + 1)
  {
    var s1 := Step(s, WorkerFind);
    var s2 := Step(s1, WorkerAllocate);
    var s3 := Step(s2, WorkerInsert);
    RecordWorkers(s);
    OutboxStep(s, WorkerFind);
    OutboxStep(s1, WorkerAllocate);
    OutboxStep(s2, WorkerInsert);
    OutboxStep(s3, WorkerCheckpoint);
  }

  lemma RecordWorkers(s: State)
    requires s.worker.Finding?
    ensures var s1 := Step(s, WorkerFind);
            var s2 := Step(s1, WorkerAllocate);
            var s3 := Step(s2, WorkerInsert);
            && !s1.worker.Down? && !s2.worker.Down? && !s3.worker.Down?
            && Step(s3, WorkerCheckpoint).worker == Streaming(s.worker.draft.token + 1)
  {
  }

  /** A turn with the index answering marks one more event, if there is one. */
  lemma DrainAdvances(s: State)
    requires OutboxOk(s) && IndexOk(s) && s.drainer.Polling?
    ensures var d := Marked(s.outbox, s.lastSequence);
            if d < |s.outbox| then
              ClaimNext(s.outbox, s.lastSequence) == Some(s.outbox[d])
              && DrainSteps(s, true) == s.(index := ApplyEvent(s.index, s.outbox[d]), lastSequence := s.outbox[d].sequence)
            else ClaimNext(s.outbox, s.lastSequence) == None && DrainSteps(s, true) == s
  {
    ClaimIsNext(s.outbox, s.lastSequence);
  }

  lemma DrainKeeps(s: State)
    requires OutboxOk(s) && IndexOk(s) && s.drainer.Polling?
    requires Marked(s.outbox, s.lastSequence) < |s.outbox|
    ensures IndexOk(DrainSteps(s, true))
    ensures Marked(s.outbox, DrainSteps(s, true).lastSequence) == Marked(s.outbox, s.lastSequence) + 1
  {
    var d := Marked(s.outbox, s.lastSequence);
    DrainAdvances(s);
    MarkedUniqueAt(s.outbox, d);
    FoldApplied(s.base, s.outbox, s.index, d);
  }

  ghost predicate Drainable(s: State) {
    OutboxOk(s) && IndexOk(s) && s.drainer.Polling?
  }

  function Unmarked(s: State): nat {
    |s.outbox| - Marked(s.outbox, s.lastSequence)
  }

  lemma DrainTurn(s: State)
    requires Drainable(s)
    ensures Drainable(DrainSteps(s, true))
    ensures ClaimNext(s.outbox, s.lastSequence).Some? <==> Unmarked(s) > 0
    ensures Unmarked(DrainSteps(s, true)) == if Unmarked(s) > 0 then Unmarked(s) - 1 else 0
  {
    DrainAdvances(s);
    if Unmarked(s) > 0 {
      DrainKeeps(s);
    }
  }

  lemma MarkedUniqueAt(outbox: seq<OutboxEvent>, d: nat)
    requires Rising(outbox) && d < |outbox|
    ensures Marked(outbox, outbox[d].sequence) == d + 1
  {
    MarkedUnique(outbox, outbox[d].sequence, d + 1);
  }
}
