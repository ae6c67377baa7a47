/** The in-memory flush buffer: what pushes, flushes and requeues do to the chunks a pod accepted.

    A chunk is known by its ticket, the number of its acceptance; the ticket stands for the receipt
    its producer waits on. */
module FlushBuffer {
  import opened Basics
  import opened LaneStore
  import opened CommitSpec

  // ---- The buffer and the code that works on it ----

  class Buffer {
    var held: seq<nat>
    var accepted: nat
    const limit: nat

    constructor (limit: nat)
      ensures held == [] && accepted == 0 && this.limit == limit
    {
      held, accepted := [], 0;
      this.limit := limit;
    }

    /** A full buffer refuses the chunk and stays as it was. */
    method Enqueue() returns (ticket: Option<nat>)
      modifies this
      ensures old(|held|) >= limit ==> ticket == None && held == old(held) && accepted == old(accepted)
      ensures old(|held|) < limit ==>
                ticket == Some(old(accepted)) && held == old(held) + [old(accepted)] && accepted == old(accepted) + 1
    {
      if |held| >= limit {
        return None;
      }
      ticket := Some(accepted);
      held := held + [accepted];
      accepted := accepted + 1;
    }

    method Take() returns (batch: seq<nat>)
      modifies this`held
      ensures batch == old(held) && held == []
    {
      batch := held;
      held := [];
    }

    /** Puts a batch back in front of what arrived meanwhile. */
    method Requeue(batch: seq<nat>)
      modifies this`held
      ensures held == batch + old(held)
    {
      var later := held;
      held := batch;
      held := held + later;
    }
  }

  /** The tickets of a batch whose verdict is missing, in order. */
  ghost function Deferred(batch: seq<nat>, verdicts: seq<Option<Verdict>>): seq<nat>
    requires |batch| == |verdicts|
  {
    if batch == [] then []
    else
      var n := |batch| - 1;
      Deferred(batch[..n], verdicts[..n]) + if verdicts[n].None? then [batch[n]] else []
  }

  ghost function Replies(batch: seq<nat>, verdicts: seq<Option<Verdict>>): seq<(nat, Verdict)>
    requires |batch| == |verdicts|
  {
    if batch == [] then []
    else
      var n := |batch| - 1;
      Replies(batch[..n], verdicts[..n]) + match verdicts[n] case None => [] case Some(v) => [(batch[n], v)]
  }

  /** The answering loop of `flush_once`. */
  method AnswerBatch(batch: seq<nat>, verdicts: seq<Option<Verdict>>)
    returns (replies: seq<(nat, Verdict)>, deferred: seq<nat>)
    requires |batch| == |verdicts|
    ensures replies == Replies(batch, verdicts) && deferred == Deferred(batch, verdicts)
    ensures |replies| == AnsweredBefore(verdicts, |batch|) && |deferred| == |batch| - |replies|
    ensures forall i :: 0 <= i < |batch| ==> Placed(batch, verdicts, replies, deferred, i)
    ensures multiset(batch) == multiset(deferred) + multiset(Tickets(replies))
  {
    replies, deferred := [], [];
    for i := 0 to |batch|
      invariant replies == Replies(batch[..i], verdicts[..i]) && deferred == Deferred(batch[..i], verdicts[..i])
    {
      assert batch[..i + 1][..i] == batch[..i] && verdicts[..i + 1][..i] == verdicts[..i];
      match verdicts[i]
      case None => deferred := deferred + [batch[i]];
      case Some(v) => replies := replies + [(batch[i], v)];
    }
    assert batch[..|batch|] == batch && verdicts[..|batch|] == verdicts;
    AnsweredOrDeferred(batch, verdicts);
    InPlace(batch, verdicts);
  }

  /** How many of the first `n` entries have a verdict. */
  ghost function AnsweredBefore(verdicts: seq<Option<Verdict>>, n: nat): (k: nat)
    requires n <= |verdicts|
    ensures k <= n
  {
    if n == 0 then 0 else AnsweredBefore(verdicts, n - 1) + if verdicts[n - 1].Some? then 1 else 0
  }

  lemma {:induction false} SameBefore(verdicts: seq<Option<Verdict>>, m: nat, n: nat)
    requires n <= m <= |verdicts|
    ensures AnsweredBefore(verdicts[..m], n) == AnsweredBefore(verdicts, n)
  {
    if n > 0 {
      SameBefore(verdicts, m, n - 1);
    }
  }

  /** Entry `i` is where it belongs: its ticket with its own verdict after the replies before it, or its
      ticket after the tickets deferred before it. */
  ghost predicate Placed(batch: seq<nat>, verdicts: seq<Option<Verdict>>, replies: seq<(nat, Verdict)>,
                         deferred: seq<nat>, i: nat)
    requires i < |batch| == |verdicts|
  {
    var k := AnsweredBefore(verdicts, i);
    if verdicts[i].Some? then k < |replies| && replies[k] == (batch[i], verdicts[i].value)
    else i - k < |deferred| && deferred[i - k] == batch[i]
  }

  ghost predicate AllPlaced(batch: seq<nat>, verdicts: seq<Option<Verdict>>, replies: seq<(nat, Verdict)>,
                            deferred: seq<nat>)
    requires |batch| == |verdicts|
  {
    && |replies| == AnsweredBefore(verdicts, |batch|) && |deferred| == |batch| - |replies|
    && forall i :: 0 <= i < |batch| ==> Placed(batch, verdicts, replies, deferred, i)
  }

  lemma {:induction false} InPlace(batch: seq<nat>, verdicts: seq<Option<Verdict>>)
    requires |batch| == |verdicts|
    ensures AllPlaced(batch, verdicts, Replies(batch, verdicts), Deferred(batch, verdicts))
  {
    if batch != [] {
      var n := |batch| - 1;
      InPlace(batch[..n], verdicts[..n]);
      var replies, deferred := Replies(batch[..n], verdicts[..n]), Deferred(batch[..n], verdicts[..n]);
      PlacedPush(batch, verdicts, replies, deferred);
      if verdicts[n].Some? {
        assert Deferred(batch, verdicts) == deferred;
      } else {
        assert Replies(batch, verdicts) == replies;
      }
    }
  }

  /** One more entry, with what is already placed only appended to. */
  lemma PlacedPush(batch: seq<nat>, verdicts: seq<Option<Verdict>>, replies: seq<(nat, Verdict)>, deferred: seq<nat>)
    requires |batch| == |verdicts| && batch != []
    requires var n := |batch| - 1; AllPlaced(batch[..n], verdicts[..n], replies, deferred)
    ensures var n := |batch| - 1;
            if verdicts[n].Some? then AllPlaced(batch, verdicts, replies + [(batch[n], verdicts[n].value)], deferred)
            else AllPlaced(batch, verdicts, replies, deferred + [batch[n]])
  {
    var n := |batch| - 1;
    var more := if verdicts[n].Some? then replies + [(batch[n], verdicts[n].value)] else replies;
    var kept := if verdicts[n].Some? then deferred else deferred + [batch[n]];
    SameBefore(verdicts, n, n);
    forall i | 0 <= i < |batch| ensures Placed(batch, verdicts, more, kept, i) {
      if i < n {
        assert Placed(batch[..n], verdicts[..n], replies, deferred, i);
        StaysPlaced(batch, verdicts, n, replies, deferred, more, kept, i);
      }
    }
  }

  lemma StaysPlaced(batch: seq<nat>, verdicts: seq<Option<Verdict>>, n: nat, before: seq<(nat, Verdict)>,
                    kept: seq<nat>, replies: seq<(nat, Verdict)>, deferred: seq<nat>, i: nat)
    requires i < n <= |batch| == |verdicts| && before <= replies && kept <= deferred
    requires Placed(batch[..n], verdicts[..n], before, kept, i)
    ensures Placed(batch, verdicts, replies, deferred, i)
  {
    SameBefore(verdicts, n, i);
  }

  /** Every entry of a batch is answered or deferred, and once. */
  lemma {:induction false} AnsweredOrDeferred(batch: seq<nat>, verdicts: seq<Option<Verdict>>)
    requires |batch| == |verdicts|
    ensures multiset(batch) == multiset(Deferred(batch, verdicts)) + multiset(Tickets(Replies(batch, verdicts)))
  {
    if batch != [] {
      var n := |batch| - 1;
      AnsweredOrDeferred(batch[..n], verdicts[..n]);
      assert batch == batch[..n] + [batch[n]];
      var replies, deferred := Replies(batch[..n], verdicts[..n]), Deferred(batch[..n], verdicts[..n]);
      if verdicts[n].Some? {
        TicketsPush(replies, batch[n], verdicts[n].value);
        assert Deferred(batch, verdicts) == deferred;
      } else {
        assert Replies(batch, verdicts) == replies;
      }
    }
  }

  ghost function Tickets(replies: seq<(nat, Verdict)>): seq<nat> {
    seq(|replies|, i requires 0 <= i < |replies| => replies[i].0)
  }

  lemma TicketsPush(replies: seq<(nat, Verdict)>, t: nat, v: Verdict)
    ensures Tickets(replies + [(t, v)]) == Tickets(replies) + [t]
  {
  }

  // ---- Any number of flushes and pushes, interleaved ----

  /** A flush in flight: entries before `done` were read off the batch, those without a verdict kept
      in `deferred`. Until the commit returns there are no verdicts. */
  datatype Flight = Flight(batch: seq<nat>, verdicts: Option<seq<Option<Verdict>>>, done: nat, deferred: seq<nat>)
  {
    ghost function InHand(): seq<nat>
      requires done <= |batch|
    {
      deferred + batch[done..]
    }
  }

  /** `streak` counts the flushes in a row that put something back. */
  datatype State = State(buffer: seq<nat>, flights: map<nat, Flight>, accepted: nat, answered: seq<nat>, streak: nat)

  datatype Action =
    | Push
    | Take(f: nat)
    | Committed(f: nat, verdicts: seq<Option<Verdict>>)
    | AnswerNext(f: nat)
    | Finish(f: nat)
    | CommitFailed(f: nat)
    | Dropped(f: nat)

  ghost predicate Init(st: State) {
    st == State([], map[], 0, [], 0)
  }

  ghost predicate Enabled(limit: nat, st: State, act: Action) {
    match act
    case Push => |st.buffer| < limit
    case Take(f) => f !in st.flights && st.buffer != []
    case Committed(f, verdicts) =>
      f in st.flights && st.flights[f].verdicts.None? && |verdicts| == |st.flights[f].batch|
    case AnswerNext(f) => Answering(st, f) && st.flights[f].done < |st.flights[f].batch|
    case Finish(f) => Answering(st, f) && st.flights[f].done == |st.flights[f].batch|
    case CommitFailed(f) => f in st.flights && st.flights[f].verdicts.None?
    case Dropped(f) => f in st.flights
  }

  ghost predicate Answering(st: State, f: nat) {
    && f in st.flights && st.flights[f].verdicts.Some?
    && |st.flights[f].verdicts.value| == |st.flights[f].batch|
  }

  ghost function Apply(limit: nat, st: State, act: Action): State
    requires Enabled(limit, st, act) && Shaped(st)
  {
    match act
    case Push => st.(buffer := st.buffer + [st.accepted], accepted := st.accepted + 1)
    case Take(f) => st.(buffer := [], flights := st.flights[f := Flight(st.buffer, None, 0, [])])
    case Committed(f, verdicts) => st.(flights := st.flights[f := st.flights[f].(verdicts := Some(verdicts))])
    case AnswerNext(f) =>
      var w := st.flights[f];
      if w.verdicts.value[w.done].None? then
        st.(flights := st.flights[f := w.(done := w.done + 1, deferred := w.deferred + [w.batch[w.done]])])
      else
        st.(flights := st.flights[f := w.(done := w.done + 1)], answered := st.answered + [w.batch[w.done]])
    case Finish(f) =>
      var back := st.flights[f].deferred;
      st.(flights := st.flights - {f}, buffer := back + st.buffer, streak := if back == [] then 0 else st.streak + 1)
    case CommitFailed(f) =>
      st.(flights := st.flights - {f}, buffer := st.flights[f].batch + st.buffer, streak := st.streak + 1)
    case Dropped(f) =>
      // Dropping the senders resolves the receipts they belong to.
      st.(flights := st.flights - {f}, answered := st.answered + st.flights[f].InHand(), streak := 0)
  }

  ghost predicate Shaped(st: State) {
    forall f :: f in st.flights ==>
      && st.flights[f].done <= |st.flights[f].batch|
      && (st.flights[f].verdicts.None? ==> st.flights[f].done == 0 && st.flights[f].deferred == [])
  }

  // ---- Conservation ----

  /** What waits in the buffer or was answered. */
  ghost function AtRest(st: State): multiset<nat> {
    multiset(st.buffer) + multiset(st.answered)
  }

  /** What one flight holds. */
  ghost function InHand(st: State, f: nat): multiset<nat>
    requires Shaped(st)
  {
    if f in st.flights then multiset(st.flights[f].InHand()) else multiset{}
  }

  /** Every accepted chunk is in exactly one place: the buffer, one flight, or the answers; and there once. */
  ghost predicate Conserved(st: State) {
    && Shaped(st)
    && (forall n, f :: AtRest(st)[n] + InHand(st, f)[n] <= 1)
    && (forall n, f, g :: f != g ==> InHand(st, f)[n] + InHand(st, g)[n] <= 1)
    && (forall n: nat :: n < st.accepted <==> Somewhere(st, n))
  }

  ghost predicate Somewhere(st: State, n: nat)
    requires Shaped(st)
  {
    n in AtRest(st) || exists f :: n in InHand(st, f)
  }

  /** A step that only moves tickets between the buffer, the answers and one flight. */
  lemma Moved(st: State, st': State, f: nat)
    requires Conserved(st) && Shaped(st') && st'.accepted == st.accepted
    requires forall g :: g != f ==> InHand(st', g) == InHand(st, g)
    requires AtRest(st') + InHand(st', f) == AtRest(st) + InHand(st, f)
    ensures Conserved(st')
  {
    forall n: nat
      ensures AtRest(st')[n] + InHand(st', f)[n] == AtRest(st)[n] + InHand(st, f)[n]
    {
      assert (AtRest(st') + InHand(st', f))[n] == (AtRest(st) + InHand(st, f))[n];
    }
    forall n: nat, g | g != f
      ensures AtRest(st')[n] + InHand(st', g)[n] <= 1 && InHand(st', f)[n] + InHand(st', g)[n] <= 1
    {
      assert AtRest(st)[n] + InHand(st, g)[n] <= 1 && InHand(st, f)[n] + InHand(st, g)[n] <= 1;
    }
    forall n: nat ensures Somewhere(st', n) <==> Somewhere(st, n) {
      SomewhereElse(st, st', f, n);
    }
  }

  lemma SomewhereElse(st: State, st': State, f: nat, n: nat)
    requires Shaped(st) && Shaped(st')
    requires forall g :: g != f ==> InHand(st', g) == InHand(st, g)
    requires AtRest(st')[n] + InHand(st', f)[n] == AtRest(st)[n] + InHand(st, f)[n]
    ensures Somewhere(st', n) <==> Somewhere(st, n)
  {
    if n in AtRest(st) || n in InHand(st, f) {
      assert n in AtRest(st') || n in InHand(st', f);
    } else {
      assert n !in AtRest(st') && n !in InHand(st', f);
    }
  }

  lemma PushConserves(limit: nat, st: State)
    requires Conserved(st) && Enabled(limit, st, Push)
    ensures Conserved(Apply(limit, st, Push))
  {
    var st' := Apply(limit, st, Push);
    assert AtRest(st') == AtRest(st) + multiset{st.accepted};
    assert !Somewhere(st, st.accepted);
    assert forall f :: InHand(st', f) == InHand(st, f);
    forall n: nat ensures Somewhere(st', n) <==> Somewhere(st, n) || n == st.accepted {}
  }

  lemma TakeMoves(limit: nat, st: State, f: nat)
    requires Shaped(st) && Enabled(limit, st, Take(f))
    ensures var st' := Apply(limit, st, Take(f));
            Shaped(st') && AtRest(st') + InHand(st', f) == AtRest(st) + InHand(st, f)
  {
    assert Apply(limit, st, Take(f)).flights[f].InHand() == st.buffer;
  }

  /** Everything a flight still holds goes back to the buffer or is answered. */
  lemma LandingMoves(limit: nat, st: State, act: Action, f: nat)
    requires act == Finish(f) || act == CommitFailed(f) || act == Dropped(f)
    requires Shaped(st) && Enabled(limit, st, act)
    ensures var st' := Apply(limit, st, act);
            Shaped(st') && AtRest(st') + InHand(st', f) == AtRest(st) + InHand(st, f)
  {
    var w := st.flights[f];
    if act.Finish? {
      assert w.InHand() == w.deferred;
    } else if act.CommitFailed? {
      assert w.InHand() == w.batch;
    }
  }

  lemma CommittedMoves(limit: nat, st: State, f: nat, verdicts: seq<Option<Verdict>>)
    requires Shaped(st) && Enabled(limit, st, Committed(f, verdicts))
    ensures var st' := Apply(limit, st, Committed(f, verdicts));
            Shaped(st') && AtRest(st') + InHand(st', f) == AtRest(st) + InHand(st, f)
  {
    assert Apply(limit, st, Committed(f, verdicts)).flights[f].InHand() == st.flights[f].InHand();
  }

  lemma StepConserves(limit: nat, st: State, act: Action)
    requires Conserved(st) && Enabled(limit, st, act)
    ensures Conserved(Apply(limit, st, act))
  {
    if act.Push? {
      PushConserves(limit, st);
    } else {
      FlightMoves(limit, st, act);
      OtherFlights(limit, st, act);
      Moved(st, Apply(limit, st, act), act.f);
    }
  }

  /** Tickets move between the buffer, the answers and the flight that takes the step. */
  lemma FlightMoves(limit: nat, st: State, act: Action)
    requires Shaped(st) && Enabled(limit, st, act) && !act.Push?
    ensures var st' := Apply(limit, st, act);
            Shaped(st') && AtRest(st') + InHand(st', act.f) == AtRest(st) + InHand(st, act.f)
  {
    match act
    case Take(f) => TakeMoves(limit, st, f);
    case Committed(f, verdicts) => CommittedMoves(limit, st, f, verdicts);
    case AnswerNext(f) => AnswerMoves(limit, st, f);
    case Finish(f) => LandingMoves(limit, st, act, f);
    case CommitFailed(f) => LandingMoves(limit, st, act, f);
    case Dropped(f) => LandingMoves(limit, st, act, f);
  }

  lemma OtherFlights(limit: nat, st: State, act: Action)
    requires Shaped(st) && Enabled(limit, st, act) && !act.Push? && Shaped(Apply(limit, st, act))
    ensures Apply(limit, st, act).accepted == st.accepted
    ensures forall g :: g != act.f ==> InHand(Apply(limit, st, act), g) == InHand(st, g)
  {
  }

  lemma AnswerMoves(limit: nat, st: State, f: nat)
    requires Shaped(st) && Enabled(limit, st, AnswerNext(f))
    ensures var st' := Apply(limit, st, AnswerNext(f));
            Shaped(st') && AtRest(st') + InHand(st', f) == AtRest(st) + InHand(st, f)
  {
    var st' := Apply(limit, st, AnswerNext(f));
    var w, w' := st.flights[f], st'.flights[f];
    assert w.batch[w.done..] == [w.batch[w.done]] + w.batch[w.done + 1..];
    if w.verdicts.value[w.done].None? {
      assert w'.InHand() == w.InHand();
    } else {
      assert multiset(w.InHand()) == multiset(w'.InHand()) + multiset{w.batch[w.done]};
    }
  }

  // ---- Runs ----

  ghost predicate Step(limit: nat, st: State, st': State) {
    Shaped(st) && exists act :: Enabled(limit, st, act) && st' == Apply(limit, st, act)
  }

  ghost predicate IsRun(limit: nat, run: seq<State>) {
    && run != [] && Init(run[0])
    && forall i :: 0 <= i < |run| - 1 ==> StepAt(limit, run, i)
  }

  ghost predicate StepAt(limit: nat, run: seq<State>, i: int)
    requires 0 <= i < |run| - 1
  {
    Step(limit, run[i], run[i + 1])
  }

  lemma ActionAt(limit: nat, run: seq<State>, i: nat) returns (act: Action)
    requires IsRun(limit, run) && i + 1 < |run|
    ensures Shaped(run[i]) && Enabled(limit, run[i], act) && run[i + 1] == Apply(limit, run[i], act)
  {
    assert StepAt(limit, run, i);
    act :| Enabled(limit, run[i], act) && run[i + 1] == Apply(limit, run[i], act);
  }

  lemma InitConserves(st: State)
    requires Init(st)
    ensures Conserved(st)
  {
    assert AtRest(st) == multiset{};
    assert forall f :: InHand(st, f) == multiset{};
    assert forall n: nat :: !Somewhere(st, n);
  }

  /** In every run, whatever flushes overlap, fail or are dropped. */
  lemma {:induction false} AlwaysConserved(limit: nat, run: seq<State>, i: nat)
    requires IsRun(limit, run) && i < |run|
    ensures Conserved(run[i])
  {
    if i > 0 {
      AlwaysConserved(limit, run, i - 1);
      var act := ActionAt(limit, run, i - 1);
      StepConserves(limit, run[i - 1], act);
    } else {
      InitConserves(run[0]);
    }
  }

  // ---- Which entries a flight answers ----

  /** Of the entries read off so far, a flight keeps exactly those without a verdict, in order, and has
      answered the others. */
  ghost predicate FlightAnswers(st: State, w: Flight) {
    w.verdicts.Some? ==>
      && w.done <= |w.batch| == |w.verdicts.value|
      && w.deferred == Deferred(w.batch[..w.done], w.verdicts.value[..w.done])
      && forall k :: 0 <= k < w.done && w.verdicts.value[k].Some? ==> w.batch[k] in st.answered
  }

  lemma AnswerStep(limit: nat, st: State, f: nat)
    requires Shaped(st) && Enabled(limit, st, AnswerNext(f)) && FlightAnswers(st, st.flights[f])
    ensures FlightAnswers(Apply(limit, st, AnswerNext(f)), Apply(limit, st, AnswerNext(f)).flights[f])
  {
    var w := st.flights[f];
    var d, v := w.done, w.verdicts.value;
    assert w.batch[..d + 1][..d] == w.batch[..d] && v[..d + 1][..d] == v[..d];
  }

  /** In every run, for every flight. */
  lemma {:induction false} FlightsAnswerTheirVerdicts(limit: nat, run: seq<State>, i: nat, f: nat)
    requires IsRun(limit, run) && i < |run| && f in run[i].flights
    ensures FlightAnswers(run[i], run[i].flights[f])
  {
    var act := ActionAt(limit, run, i - 1);
    if act == AnswerNext(f) {
      FlightsAnswerTheirVerdicts(limit, run, i - 1, f);
      AnswerStep(limit, run[i - 1], f);
    } else if act.Committed? && act.f == f {
      assert run[i].flights[f].batch[..0] == [] && act.verdicts[..0] == [];
    } else if act != Take(f) {
      FlightsAnswerTheirVerdicts(limit, run, i - 1, f);
    }
  }

  // ---- The order of acceptance ----

  ghost predicate Sorted(s: seq<nat>) {
    forall i, j :: 0 <= i < j < |s| ==> s[i] < s[j]
  }

  /** Every ticket of `s` is below every ticket of `u`. */
  ghost predicate Ahead(s: seq<nat>, u: seq<nat>) {
    forall i, j :: 0 <= i < |s| && 0 <= j < |u| ==> s[i] < u[j]
  }

  /** What a landing flight puts back in front of the buffer. */
  ghost function PutBack(st: State, act: Action): seq<nat>
    requires act.Finish? || act.CommitFailed? ==> act.f in st.flights
  {
    match act
    case Finish(f) => st.flights[f].deferred
    case CommitFailed(f) => st.flights[f].batch
    case _ => []
  }

  /** A flight lands and puts back a chunk accepted later than one that waits in the buffer. */
  ghost predicate Jumps(limit: nat, st: State, act: Action) {
    && (act.Finish? || act.CommitFailed?) && Enabled(limit, st, act)
    && !Ahead(PutBack(st, act), st.buffer)
  }

  ghost predicate JumpsAt(limit: nat, run: seq<State>, j: int)
    requires 0 <= j < |run| - 1
  {
    Shaped(run[j]) && exists act :: Jumps(limit, run[j], act) && run[j + 1] == Apply(limit, run[j], act)
  }

  /** `s` is in order of acceptance, and all of it was accepted before ticket `n`. */
  ghost predicate SortedBelow(s: seq<nat>, n: nat) {
    Sorted(s) && forall i :: 0 <= i < |s| ==> s[i] < n
  }

  ghost predicate HandSorted(st: State, w: Flight) {
    w.done <= |w.batch| && SortedBelow(w.InHand(), st.accepted)
  }

  /** The buffer and every flight's hand are in order. */
  ghost predicate AllSorted(st: State) {
    && Shaped(st) && SortedBelow(st.buffer, st.accepted)
    && forall f :: f in st.flights ==> HandSorted(st, st.flights[f])
  }

  lemma StepKeepsSorted(limit: nat, st: State, act: Action)
    requires AllSorted(st) && Enabled(limit, st, act) && !Jumps(limit, st, act)
    ensures AllSorted(Apply(limit, st, act))
  {
    match act
    case Push => PushKeepsSorted(limit, st);
    case Take(f) => assert Apply(limit, st, act).flights[f].InHand() == st.buffer;
    case Committed(f, verdicts) =>
      assert Apply(limit, st, act).flights[f].InHand() == st.flights[f].InHand();
    case AnswerNext(f) => AnswerKeepsSorted(limit, st, f);
    case Finish(f) =>
      assert st.flights[f].InHand() == st.flights[f].deferred;
      LandingKeepsSorted(limit, st, act);
    case CommitFailed(f) =>
      assert st.flights[f].InHand() == st.flights[f].batch;
      LandingKeepsSorted(limit, st, act);
    case Dropped(f) =>
  }

  lemma PushKeepsSorted(limit: nat, st: State)
    requires AllSorted(st) && Enabled(limit, st, Push)
    ensures AllSorted(Apply(limit, st, Push))
  {
    var st' := Apply(limit, st, Push);
    forall f | f in st'.flights ensures HandSorted(st', st'.flights[f]) {
      assert HandSorted(st, st.flights[f]);
    }
  }

  lemma LandingKeepsSorted(limit: nat, st: State, act: Action)
    requires AllSorted(st) && Enabled(limit, st, act) && (act.Finish? || act.CommitFailed?)
    requires PutBack(st, act) == st.flights[act.f].InHand() && Ahead(PutBack(st, act), st.buffer)
    ensures AllSorted(Apply(limit, st, act))
  {
    var st' := Apply(limit, st, act);
    assert HandSorted(st, st.flights[act.f]);
    assert st'.buffer == PutBack(st, act) + st.buffer;
    Joined(PutBack(st, act), st.buffer, st.accepted);
    forall g | g in st'.flights ensures HandSorted(st', st'.flights[g]) {
      assert HandSorted(st, st.flights[g]);
    }
  }

  lemma AnswerKeepsSorted(limit: nat, st: State, f: nat)
    requires AllSorted(st) && Enabled(limit, st, AnswerNext(f))
    ensures AllSorted(Apply(limit, st, AnswerNext(f)))
  {
    var st' := Apply(limit, st, AnswerNext(f));
    AnswerShrinks(limit, st, f);
    assert HandSorted(st, st.flights[f]);
    SortedPart(st'.flights[f].InHand(), st.flights[f].InHand(), st.accepted);
    forall g | g in st'.flights ensures HandSorted(st', st'.flights[g]) {
      assert g != f ==> HandSorted(st, st.flights[g]);
    }
  }

  /** `part` is `all`, or `all` without one of its entries. */
  ghost predicate AtMostOneLess(part: seq<nat>, all: seq<nat>) {
    part == all || exists k :: 0 <= k < |all| && part == all[..k] + all[k + 1..]
  }

  /** Reading one entry off a batch leaves the hand as it is, or takes that entry out of it. */
  lemma AnswerShrinks(limit: nat, st: State, f: nat)
    requires Shaped(st) && Enabled(limit, st, AnswerNext(f))
    ensures f in Apply(limit, st, AnswerNext(f)).flights && Shaped(Apply(limit, st, AnswerNext(f)))
    ensures AtMostOneLess(Apply(limit, st, AnswerNext(f)).flights[f].InHand(), st.flights[f].InHand())
  {
    var w, w' := st.flights[f], Apply(limit, st, AnswerNext(f)).flights[f];
    var k, all := |w.deferred|, w.InHand();
    assert all[..k] == w.deferred && all[k + 1..] == w.batch[w.done + 1..] && all[k] == w.batch[w.done];
    if w.verdicts.value[w.done].None? {
      assert w'.InHand() == w.InHand();
    } else {
      assert w'.InHand() == all[..k] + all[k + 1..];
    }
  }

  lemma SortedPart(part: seq<nat>, all: seq<nat>, n: nat)
    requires AtMostOneLess(part, all) && SortedBelow(all, n)
    ensures SortedBelow(part, n)
  {
    if part != all {
      var k :| 0 <= k < |all| && part == all[..k] + all[k + 1..];
      assert forall i :: 0 <= i < |part| ==> part[i] == all[if i < k then i else i + 1];
    }
  }

  lemma AheadPart(part: seq<nat>, all: seq<nat>, later: seq<nat>)
    requires AtMostOneLess(part, all) && Ahead(all, later)
    ensures Ahead(part, later)
  {
    if part != all {
      var k :| 0 <= k < |all| && part == all[..k] + all[k + 1..];
      assert forall i :: 0 <= i < |part| ==> part[i] == all[if i < k then i else i + 1];
    }
  }

  lemma Joined(s: seq<nat>, u: seq<nat>, n: nat)
    requires SortedBelow(s, n) && SortedBelow(u, n) && Ahead(s, u)
    ensures SortedBelow(s + u, n)
  {
  }

  lemma SortedMeansAhead(s: seq<nat>, u: seq<nat>)
    requires Sorted(s + u)
    ensures Ahead(s, u)
  {
    forall i, j | 0 <= i < |s| && 0 <= j < |u| ensures s[i] < u[j] {
      assert (s + u)[i] == s[i] && (s + u)[|s| + j] == u[j];
    }
  }

  lemma {:induction false} NoJumpKeepsSorted(limit: nat, run: seq<State>, i: nat)
    requires IsRun(limit, run) && i < |run| && forall j :: 0 <= j < i ==> !JumpsAt(limit, run, j)
    ensures AllSorted(run[i])
  {
    if i > 0 {
      NoJumpKeepsSorted(limit, run, i - 1);
      var act := ActionAt(limit, run, i - 1);
      assert !JumpsAt(limit, run, i - 1);
      StepKeepsSorted(limit, run[i - 1], act);
    }
  }

  lemma SortedNoJump(limit: nat, run: seq<State>, j: nat)
    requires IsRun(limit, run) && j + 1 < |run| && Sorted(run[j + 1].buffer)
    ensures !JumpsAt(limit, run, j)
  {
    if Shaped(run[j]) {
      forall act | Enabled(limit, run[j], act) && run[j + 1] == Apply(limit, run[j], act)
        ensures !Jumps(limit, run[j], act)
      {
        if act.Finish? || act.CommitFailed? {
          assert run[j + 1].buffer == PutBack(run[j], act) + run[j].buffer;
          SortedMeansAhead(PutBack(run[j], act), run[j].buffer);
        }
      }
    }
  }

  /** In every run, overlapping flushes included: the buffer has been in order of acceptance all along
      exactly when no landing flight has jumped ahead. */
  lemma OrderedIffNoJump(limit: nat, run: seq<State>, i: nat)
    requires IsRun(limit, run) && i < |run|
    ensures (forall j :: 0 <= j <= i ==> Sorted(run[j].buffer)) <==> forall j :: 0 <= j < i ==> !JumpsAt(limit, run, j)
  {
    if forall j :: 0 <= j <= i ==> Sorted(run[j].buffer) {
      forall j | 0 <= j < i ensures !JumpsAt(limit, run, j) {
        SortedNoJump(limit, run, j);
      }
    } else if forall j :: 0 <= j < i ==> !JumpsAt(limit, run, j) {
      forall j | 0 <= j <= i ensures Sorted(run[j].buffer) {
        NoJumpKeepsSorted(limit, run, j);
      }
    }
  }

  // ---- One flush at a time ----

  ghost predicate AtMostOne(st: State) {
    forall f, g :: f in st.flights && g in st.flights ==> f == g
  }

  /** No state of the run has two flushes in flight. */
  ghost predicate Solo(run: seq<State>) {
    forall i :: 0 <= i < |run| ==> AtMostOne(run[i])
  }

  /** What is in flight was accepted before everything in the buffer. */
  ghost predicate HandsAhead(st: State)
    requires Shaped(st)
  {
    forall f :: f in st.flights ==> Ahead(st.flights[f].InHand(), st.buffer)
  }

  lemma StepKeepsAhead(limit: nat, st: State, act: Action)
    requires AllSorted(st) && HandsAhead(st) && Enabled(limit, st, act) && Shaped(Apply(limit, st, act))
    requires AtMostOne(st) && AtMostOne(Apply(limit, st, act))
    ensures HandsAhead(Apply(limit, st, act))
  {
    var st' := Apply(limit, st, act);
    match act
    case Push =>
      forall f | f in st'.flights ensures Ahead(st'.flights[f].InHand(), st'.buffer) {
        assert HandSorted(st, st.flights[f]);
      }
    case Take(f) =>
    case Committed(f, verdicts) => assert st'.flights[f].InHand() == st.flights[f].InHand();
    case AnswerNext(f) =>
      AnswerShrinks(limit, st, f);
      AheadPart(st'.flights[f].InHand(), st.flights[f].InHand(), st.buffer);
    case Finish(f) => assert st'.flights == map[];
    case CommitFailed(f) => assert st'.flights == map[];
    case Dropped(f) => assert st'.flights == map[];
  }

  /** A hand that is ahead of the buffer does not jump. */
  lemma AheadNeverJumps(limit: nat, st: State, act: Action)
    requires Shaped(st) && HandsAhead(st)
    ensures !Jumps(limit, st, act)
  {
    if act.Finish? && Enabled(limit, st, act) {
      assert st.flights[act.f].InHand() == st.flights[act.f].deferred;
    } else if act.CommitFailed? && Enabled(limit, st, act) {
      assert st.flights[act.f].InHand() == st.flights[act.f].batch;
    }
  }

  /** With one flush at a time no landing jumps: what a flush puts back stays ahead of everything
      accepted since. */
  lemma {:induction false} SoloNeverJumps(limit: nat, run: seq<State>, i: nat)
    requires IsRun(limit, run) && Solo(run) && i < |run|
    ensures AllSorted(run[i]) && HandsAhead(run[i])
    ensures forall j :: 0 <= j < i ==> !JumpsAt(limit, run, j)
  {
    if i > 0 {
      SoloNeverJumps(limit, run, i - 1);
      var st := run[i - 1];
      forall act ensures !Jumps(limit, st, act) {
        AheadNeverJumps(limit, st, act);
      }
      var act := ActionAt(limit, run, i - 1);
      StepKeepsSorted(limit, run[i - 1], act);
      StepKeepsAhead(limit, run[i - 1], act);
    }
  }

  /** So the buffer is always in order of acceptance. */
  lemma SoloKeepsOrder(limit: nat, run: seq<State>, i: nat)
    requires IsRun(limit, run) && Solo(run) && i < |run|
    ensures Sorted(run[i].buffer) && AllSorted(run[i]) && HandsAhead(run[i])
  {
    SoloNeverJumps(limit, run, i);
    OrderedIffNoJump(limit, run, i);
  }

  /** Two flushes at once can put a later chunk ahead of an earlier one. */
  lemma OverlapBreaksOrder(limit: nat) returns (run: seq<State>)
    requires limit > 0
    ensures IsRun(limit, run) && run[|run| - 1].buffer == [1, 0]
  {
    run := TwoInFlight(limit);
    run := Extended(limit, run, CommitFailed(0), State([0], map[1 := Flight([1], None, 0, [])], 2, [], 1));
    run := Extended(limit, run, CommitFailed(1), State([1, 0], map[], 2, [], 2));
  }

  /** The same two flushes, failing the other way round, keep the order. */
  lemma OverlapCanKeepOrder(limit: nat) returns (run: seq<State>)
    requires limit > 0
    ensures IsRun(limit, run) && run[|run| - 1].buffer == [0, 1] && !Solo(run)
  {
    run := TwoInFlight(limit);
    var two := |run| - 1;
    run := Extended(limit, run, CommitFailed(1), State([1], map[0 := Flight([0], None, 0, [])], 2, [], 1));
    run := Extended(limit, run, CommitFailed(0), State([0, 1], map[], 2, [], 2));
    assert 0 in run[two].flights && 1 in run[two].flights;
  }

  lemma TwoInFlight(limit: nat) returns (run: seq<State>)
    requires limit > 0
    ensures IsRun(limit, run)
    ensures run[|run| - 1] == State([], map[0 := Flight([0], None, 0, []), 1 := Flight([1], None, 0, [])], 2, [], 0)
  {
    var first, second := Flight([0], None, 0, []), Flight([1], None, 0, []);
    run := [State([], map[], 0, [], 0)];
    run := Extended(limit, run, Push, State([0], map[], 1, [], 0));
    run := Extended(limit, run, Take(0), State([], map[0 := first], 1, [], 0));
    run := Extended(limit, run, Push, State([1], map[0 := first], 2, [], 0));
    run := Extended(limit, run, Take(1), State([], map[0 := first, 1 := second], 2, [], 0));
  }

  // ---- What the ceiling bounds ----

  /** A flush takes the buffer at this position. */
  ghost predicate TakesAt(run: seq<State>, j: int)
    requires 0 <= j < |run| - 1
  {
    exists f :: f !in run[j].flights && f in run[j + 1].flights
  }

  ghost function TakesBefore(run: seq<State>, i: nat): nat
    requires i < |run|
  {
    if i == 0 then 0 else TakesBefore(run, i - 1) + if TakesAt(run, i - 1) then 1 else 0
  }

  ghost function Min(x: nat, y: nat): nat {
    if x < y then x else y
  }

  /** In every run, whatever overlaps, fails or is put back: no more than the ceiling is accepted for each
      flush that took the buffer, and once more. */
  lemma {:induction false} AcceptedBound(limit: nat, run: seq<State>, i: nat)
    requires IsRun(limit, run) && i < |run|
    ensures run[i].accepted <= TakesBefore(run, i) * limit + Min(|run[i].buffer|, limit)
    ensures run[i].accepted <= (TakesBefore(run, i) + 1) * limit
  {
    if i > 0 {
      AcceptedBound(limit, run, i - 1);
      var act := ActionAt(limit, run, i - 1);
      if act.Take? {
        assert act.f !in run[i - 1].flights && act.f in run[i].flights;
        assert TakesAt(run, i - 1);
      }
      assert (TakesBefore(run, i - 1) + 1) * limit == TakesBefore(run, i - 1) * limit + limit;
    }
    assert (TakesBefore(run, i) + 1) * limit == TakesBefore(run, i) * limit + limit;
  }

  // ---- How far the buffer can grow ----

  ghost predicate Bounded(limit: nat, st: State) {
    && Shaped(st)
    && (st.flights == map[] ==> |st.buffer| <= (st.streak + 1) * limit)
    && (forall f :: f in st.flights ==>
          |st.buffer| <= limit && |st.flights[f].InHand()| <= (st.streak + 1) * limit)
  }

  lemma StepKeepsBound(limit: nat, st: State, act: Action)
    requires Bounded(limit, st) && Enabled(limit, st, act)
    requires AtMostOne(st) && AtMostOne(Apply(limit, st, act))
    ensures Bounded(limit, Apply(limit, st, act))
  {
    var st' := Apply(limit, st, act);
    assert (st.streak + 2) * limit == (st.streak + 1) * limit + limit;
    match act
    case Push => assert limit <= (st.streak + 1) * limit;
    case Take(f) =>
      assert forall g :: g in st.flights ==> g in st'.flights;
      assert st.flights == map[];
      assert st'.flights[f].InHand() == st.buffer;
    case Committed(f, verdicts) =>
      assert st'.flights[f].InHand() == st.flights[f].InHand();
    case AnswerNext(f) =>
    case Finish(f) =>
      assert st'.flights == map[];
    case CommitFailed(f) =>
      assert st.flights[f].InHand() == st.flights[f].batch;
      assert st'.flights == map[];
    case Dropped(f) =>
      assert st'.flights == map[];
  }

  /** With one flush at a time and `f` flushes in a row that put something back, the buffer holds at
      most (f + 1) times the ceiling; after one that puts nothing back, at most the ceiling. */
  lemma {:induction false} SoloBufferBound(limit: nat, run: seq<State>, i: nat)
    requires IsRun(limit, run) && Solo(run) && i < |run|
    ensures Bounded(limit, run[i])
    ensures |run[i].buffer| <= (run[i].streak + 1) * limit
    ensures run[i].streak == 0 ==> |run[i].buffer| <= limit
  {
    if i > 0 {
      SoloBufferBound(limit, run, i - 1);
      var act := ActionAt(limit, run, i - 1);
      StepKeepsBound(limit, run[i - 1], act);
    }
    assert limit <= (run[i].streak + 1) * limit;
    if run[i].flights != map[] {
      var f :| f in run[i].flights;
    }
  }

  /** A flight lands at this position. */
  ghost predicate LandsAt(run: seq<State>, j: int)
    requires 0 <= j < |run| - 1
  {
    exists f :: f in run[j].flights && f !in run[j + 1].flights
  }

  /** How many landings in a row, up to position `i`, put something back. */
  ghost function PutBacksInARow(run: seq<State>, i: nat): nat
    requires i < |run|
  {
    if i == 0 then 0
    else if !LandsAt(run, i - 1) then PutBacksInARow(run, i - 1)
    else if |run[i].buffer| > |run[i - 1].buffer| then PutBacksInARow(run, i - 1) + 1
    else 0
  }

  ghost predicate BatchesFilled(st: State) {
    forall f :: f in st.flights ==> st.flights[f].batch != []
  }

  /** The counter in the state is that number. */
  lemma {:induction false} StreakCounts(limit: nat, run: seq<State>, i: nat)
    requires IsRun(limit, run) && i < |run|
    ensures run[i].streak == PutBacksInARow(run, i) && BatchesFilled(run[i])
  {
    if i > 0 {
      StreakCounts(limit, run, i - 1);
      var act := ActionAt(limit, run, i - 1);
      if act.Finish? || act.CommitFailed? || act.Dropped? {
        assert act.f in run[i - 1].flights && act.f !in run[i].flights;
        assert LandsAt(run, i - 1);
      }
    }
  }

  // ---- The bound is reached ----

  lemma Extended(limit: nat, run: seq<State>, act: Action, st: State) returns (run': seq<State>)
    requires IsRun(limit, run) && Shaped(run[|run| - 1]) && Enabled(limit, run[|run| - 1], act)
    requires st == Apply(limit, run[|run| - 1], act)
    ensures IsRun(limit, run') && run <= run' && run'[|run'| - 1] == st
    ensures Solo(run) && AtMostOne(st) ==> Solo(run')
  {
    run' := run + [st];
    forall i | 0 <= i < |run'| - 1 ensures StepAt(limit, run', i) {
      if i < |run| - 1 {
        assert StepAt(limit, run, i);
      } else {
        assert Step(limit, run[|run| - 1], st);
      }
    }
  }

  /** Fills the buffer up to the ceiling. */
  lemma Filled(limit: nat, run: seq<State>) returns (run': seq<State>)
    requires IsRun(limit, run) && Solo(run) && Shaped(run[|run| - 1]) && |run[|run| - 1].buffer| <= limit
    ensures IsRun(limit, run') && Solo(run') && Shaped(run'[|run'| - 1])
    ensures var st, st' := run[|run| - 1], run'[|run'| - 1];
            |st'.buffer| == limit && st'.flights == st.flights && st'.streak == st.streak
    decreases limit - |run[|run| - 1].buffer|
  {
    run' := run;
    if |run[|run| - 1].buffer| < limit {
      var more := Extended(limit, run, Push, Apply(limit, run[|run| - 1], Push));
      run' := Filled(limit, more);
    }
  }

  /** For every ceiling and every streak there is a run, one flush at a time, that reaches the bound. */
  lemma {:induction false} BoundIsReached(limit: nat, f: nat) returns (run: seq<State>)
    requires limit > 0
    ensures IsRun(limit, run) && Solo(run) && Shaped(run[|run| - 1])
    ensures run[|run| - 1].flights == map[] && run[|run| - 1].streak == f
    ensures |run[|run| - 1].buffer| == (f + 1) * limit
  {
    if f == 0 {
      run := [State([], map[], 0, [], 0)];
      run := Filled(limit, run);
    } else {
      run := BoundIsReached(limit, f - 1);
      assert (f + 1) * limit == f * limit + limit;
      assert f * limit > 0;
      run := Extended(limit, run, Take(0), Apply(limit, run[|run| - 1], Take(0)));
      run := Filled(limit, run);
      run := Extended(limit, run, CommitFailed(0), Apply(limit, run[|run| - 1], CommitFailed(0)));
    }
  }
}
