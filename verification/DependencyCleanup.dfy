/**
 Clean-up of generator dependencies: `DependencyCleanupGroup`
 (litestar/_kwargs/cleanup.py).
 */
module DependencyCleanup {
  import opened Outcomes

  /** A generator is known by the key of the dependency that it provides. */
  type GeneratorId = string

  /** `except Exception` catches the ordinary ones, but not those like CancelledError, which are for leaving. */
  datatype Exception = Ordinary(id: nat) | Exiting(id: nat)

  /** What is done to a generator: it is advanced, or has an exception thrown into it. */
  datatype Action = Advance(generator: GeneratorId) | Throw(generator: GeneratorId, exc: Exception)

  /** How a generator answers an exception: it ends, goes on, or raises. */
  datatype Answer = Stops | GoesOn | Raises(exc: Exception)
  {
    predicate Escapes() {
      Raises? && exc.Exiting?
    }
  }

  type Answering = (GeneratorId, Exception) -> Answer

  /** Closing ends quietly, with an exception, or with a group of them. */
  datatype CloseResult = Closed | AlreadyClosed | Raised(exc: Exception) | Failed(exceptions: seq<Exception>)

  /** What a generator raises when it is advanced, if it does. */
  type Advancing = GeneratorId -> Option<Exception>

  // ----- throwing -----

  /** The exceptions that clean-up adds to the one thrown in, in the order of registration. */
  function NewExceptions(generators: seq<GeneratorId>, exc: Exception, answer: Answering): seq<Exception> {
    if generators == [] then []
    else
      (match answer(generators[0], exc)
       case Raises(e) => if e != exc then [e] else []
       case _ => [])
      + NewExceptions(generators[1..], exc, answer)
  }

  /** The first answer that is not caught. */
  function Escaped(generators: seq<GeneratorId>, exc: Exception, answer: Answering): Option<Exception> {
    if generators == [] then None
    else
      var a := answer(generators[0], exc);
      if a.Escapes() then Some(a.exc) else Escaped(generators[1..], exc, answer)
  }

  /** The generators that the exception is thrown into: up to the one whose answer is not caught. */
  function Reached(generators: seq<GeneratorId>, exc: Exception, answer: Answering): seq<GeneratorId> {
    if generators == [] then []
    else if answer(generators[0], exc).Escapes() then [generators[0]]
    else [generators[0]] + Reached(generators[1..], exc, answer)
  }

  /** What is not caught leaves at once, whatever was collected; else the new exceptions are reported. */
  function ThrowResult(generators: seq<GeneratorId>, exc: Exception, answer: Answering): CloseResult {
    match Escaped(generators, exc, answer)
    case Some(e) => Raised(e)
    case None =>
      var exceptions := NewExceptions(generators, exc, answer);
      if exceptions == [] then Closed else Failed(exceptions)
  }

  lemma {:induction false} ReachedConcat(
    a: seq<GeneratorId>, b: seq<GeneratorId>, exc: Exception, answer: Answering)
    requires Escaped(a, exc, answer) == None
    ensures Reached(a + b, exc, answer) == a + Reached(b, exc, answer)
    ensures Escaped(a + b, exc, answer) == Escaped(b, exc, answer)
    decreases a
  {
    if a == [] {
      assert a + b == b;
    } else {
      assert (a + b)[0] == a[0] && (a + b)[1..] == a[1..] + b;
      ReachedConcat(a[1..], b, exc, answer);
    }
  }

  /** Every generator is thrown into if and only if none ahead of the last gives an answer that is not caught. */
  lemma {:induction false} AllReachedIff(generators: seq<GeneratorId>, exc: Exception, answer: Answering)
    ensures Reached(generators, exc, answer) <= generators
    ensures Reached(generators, exc, answer) == generators <==>
            forall i | 0 <= i < |generators| - 1 :: !answer(generators[i], exc).Escapes()
  {
    if generators != [] {
      var rest := generators[1..];
      AllReachedIff(rest, exc, answer);
      assert generators == [generators[0]] + rest;
      assert forall i | 0 <= i < |rest| - 1 :: rest[i] == generators[i + 1];
      assert forall i | 1 <= i < |generators| - 1 :: generators[i] == rest[i - 1];
      if !answer(generators[0], exc).Escapes() {
        assert Reached(generators, exc, answer)[1..] == Reached(rest, exc, answer);
      }
    }
  }

  /** The generator at k gives the first answer that is not caught. */
  ghost predicate LeavesAt(generators: seq<GeneratorId>, exc: Exception, answer: Answering, k: int) {
    && 0 <= k < |generators| && answer(generators[k], exc).Escapes()
    && forall i | 0 <= i < k :: !answer(generators[i], exc).Escapes()
  }

  /** Throwing stops behind the first answer that is not caught, and that is what is raised. */
  lemma {:induction false} ThrowingLeavesAt(generators: seq<GeneratorId>, exc: Exception, answer: Answering, k: nat)
    requires LeavesAt(generators, exc, answer, k)
    ensures Reached(generators, exc, answer) == generators[..k + 1]
    ensures ThrowResult(generators, exc, answer) == Raised(answer(generators[k], exc).exc)
    decreases k
  {
    if k > 0 {
      var rest := generators[1..];
      assert forall i | 0 <= i < |rest| :: rest[i] == generators[i + 1];
      ThrowingLeavesAt(rest, exc, answer, k - 1);
      assert generators[..k + 1] == [generators[0]] + rest[..k];
    }
  }

  /** A new exception: the generator neither ends, nor goes on, nor gives back what was thrown in. */
  predicate AnswersAnew(g: GeneratorId, exc: Exception, answer: Answering) {
    answer(g, exc).Raises? && answer(g, exc).exc != exc
  }

  lemma {:induction false} NewExceptionsMean(generators: seq<GeneratorId>, exc: Exception, answer: Answering)
    ensures NewExceptions(generators, exc, answer) == [] <==> forall g | g in generators :: !AnswersAnew(g, exc, answer)
    ensures forall e :: e in NewExceptions(generators, exc, answer) <==>
              exists g :: g in generators && AnswersAnew(g, exc, answer) && answer(g, exc).exc == e
  {
    if generators != [] {
      var g0, rest := generators[0], generators[1..];
      NewExceptionsMean(rest, exc, answer);
      assert generators == [g0] + rest;
      assert forall g :: g in generators <==> g == g0 || g in rest;
      var first := NewExceptions(generators, exc, answer)[..if AnswersAnew(g0, exc, answer) then 1 else 0];
      assert NewExceptions(generators, exc, answer) == first + NewExceptions(rest, exc, answer);
      assert forall e :: e in first <==> AnswersAnew(g0, exc, answer) && answer(g0, exc).exc == e;
    }
  }

  lemma {:induction false} NoneEscapes(generators: seq<GeneratorId>, exc: Exception, answer: Answering)
    requires forall g | g in generators :: !answer(g, exc).Escapes()
    ensures Escaped(generators, exc, answer) == None && Reached(generators, exc, answer) == generators
  {
    if generators != [] {
      assert generators == [generators[0]] + generators[1..] && generators[0] in generators;
      NoneEscapes(generators[1..], exc, answer);
    }
  }

  /** If all answers are caught, every generator is thrown into, and exactly the new exceptions are reported. */
  lemma {:induction false} ThrowingReports(generators: seq<GeneratorId>, exc: Exception, answer: Answering)
    requires forall g | g in generators :: !answer(g, exc).Escapes()
    ensures Reached(generators, exc, answer) == generators
    ensures match ThrowResult(generators, exc, answer)
            case Closed => forall g | g in generators :: !AnswersAnew(g, exc, answer)
            case Failed(exceptions) =>
              exceptions != [] && forall e :: e in exceptions <==>
                exists g :: g in generators && AnswersAnew(g, exc, answer) && answer(g, exc).exc == e
            case _ => false
  {
    NoneEscapes(generators, exc, answer);
    NewExceptionsMean(generators, exc, answer);
  }

  /** A cancellation that the first of two generators lets pass never gets to the second. */
  lemma {:induction false} CancellationStopsThrowing()
    ensures var cancelled := Exiting(0);
            var letPass := (generator, exc) => Raises(exc);
            && Reached(["a", "b"], cancelled, letPass) == ["a"]
            && ThrowResult(["a", "b"], cancelled, letPass) == Raised(cancelled)
  {
  }

  lemma {:induction false} NewExceptionsConcat(
    a: seq<GeneratorId>, b: seq<GeneratorId>, exc: Exception, answer: Answering)
    ensures NewExceptions(a + b, exc, answer) == NewExceptions(a, exc, answer) + NewExceptions(b, exc, answer)
    decreases a
  {
    if a == [] {
      assert a + b == b;
    } else {
      assert (a + b)[0] == a[0] && (a + b)[1..] == a[1..] + b;
      NewExceptionsConcat(a[1..], b, exc, answer);
    }
  }

  function Advances(generators: seq<GeneratorId>): (r: seq<Action>)
    ensures |r| == |generators| && forall i | 0 <= i < |r| :: r[i].Advance? && r[i].generator == generators[i]
  {
    seq(|generators|, i requires 0 <= i < |generators| => Advance(generators[i]))
  }

  function Throws(generators: seq<GeneratorId>, exc: Exception): (r: seq<Action>)
    ensures |r| == |generators|
    ensures forall i | 0 <= i < |r| :: r[i].Throw? && r[i].generator == generators[i] && r[i].exc == exc
  {
    seq(|generators|, i requires 0 <= i < |generators| => Throw(generators[i], exc))
  }

  lemma {:induction false} AdvancesOnly(generators: seq<GeneratorId>, a: Action)
    requires a in multiset(Advances(generators))
    ensures a.Advance? && a.generator in generators
  {
  }

  // ----- advancing -----

  /** The generator raises an exception that its task group takes for a failure. */
  predicate Fails(advance: Advancing, g: GeneratorId) {
    advance(g).Some? && advance(g).value.Ordinary?
  }

  ghost predicate RaisedByOne(advance: Advancing, done: seq<Action>, e: Exception) {
    exists g :: Advance(g) in done && advance(g) == Some(e)
  }

  /**
   How generators may be cleaned up: each is advanced once, in any order, as long as
   none raises. Then the others may be cancelled, before they are advanced or after,
   and what was raised is reported.
   */
  ghost predicate CleanedUp(generators: seq<GeneratorId>, advance: Advancing, done: seq<Action>, r: CloseResult) {
    && multiset(done) <= multiset(Advances(generators))
    && (r == Closed ==>
          && multiset(done) == multiset(Advances(generators))
          && forall g | g in generators :: !Fails(advance, g))
    && if |generators| == 1 then
         && done == Advances(generators)
         && r == match advance(generators[0]) case Some(e) => Raised(e) case None => Closed
       else
         match r
         case Closed => true
         case AlreadyClosed => false
         case Raised(e) => e.Exiting? && RaisedByOne(advance, done, e)
         case Failed(exceptions) => exceptions != [] && forall e | e in exceptions :: RaisedByOne(advance, done, e)
  }

  /** If no generator raises an exception that is for leaving, clean-up fails exactly if one raises at all. */
  lemma {:induction false} CleanUpFailsIff(
    generators: seq<GeneratorId>, advance: Advancing, done: seq<Action>, r: CloseResult)
    requires CleanedUp(generators, advance, done, r)
    requires forall g | g in generators :: advance(g).None? || advance(g).value.Ordinary?
    ensures r == Closed <==> forall g | g in generators :: advance(g) == None
    ensures r == Closed || (if |generators| == 1 then r.Raised? else r.Failed?)
  {
    forall g | Advance(g) in done
      ensures g in generators
    {
      assert Advance(g) in multiset(done);
      AdvancesOnly(generators, Advance(g));
    }
    if r == Closed {
      forall g | g in generators
        ensures advance(g) == None
      {
        assert !Fails(advance, g);
      }
    } else if r.Failed? {
      assert RaisedByOne(advance, done, r.exceptions[0]);
    }
  }

  /** The task group at work: what was done, what waits, and what was raised. */
  ghost predicate Running(
    generators: seq<GeneratorId>, advance: Advancing, done: seq<Action>, waiting: multiset<Action>,
    exceptions: seq<Exception>)
  {
    && multiset(done) + waiting <= multiset(Advances(generators))
    && (exceptions == [] ==>
          && multiset(done) + waiting == multiset(Advances(generators))
          && forall g | Advance(g) in done :: !Fails(advance, g))
    && forall e | e in exceptions :: RaisedByOne(advance, done, e)
  }

  /** A task that raises is reported, unless it is cancelled, or passes for that. */
  lemma {:induction false} TaskRuns(
    generators: seq<GeneratorId>, advance: Advancing, done: seq<Action>, waiting: multiset<Action>,
    exceptions: seq<Exception>, g: GeneratorId, reported: bool)
    requires Running(generators, advance, done, waiting, exceptions) && Advance(g) in waiting
    requires reported ==> advance(g).Some?
    requires !reported ==> exceptions != [] || !Fails(advance, g)
    ensures Running(generators, advance, done + [Advance(g)], waiting - multiset{Advance(g)},
                    if reported then exceptions + [advance(g).value] else exceptions)
  {
    var done' := done + [Advance(g)];
    assert multiset(done') == multiset(done) + multiset{Advance(g)};
    assert multiset(done') + (waiting - multiset{Advance(g)}) == multiset(done) + waiting;
    assert Advance(g) in done' && forall a | a in done :: a in done';
    forall e | e in exceptions
      ensures RaisedByOne(advance, done', e)
    {
      assert RaisedByOne(advance, done, e);
    }
    assert reported ==> RaisedByOne(advance, done', advance(g).value);
  }

  lemma {:induction false} TasksCleanUp(
    generators: seq<GeneratorId>, advance: Advancing, done: seq<Action>, exceptions: seq<Exception>)
    requires Running(generators, advance, done, multiset{}, exceptions) && |generators| != 1
    ensures CleanedUp(generators, advance, done, if exceptions == [] then Closed else Failed(exceptions))
  {
    if exceptions == [] {
      forall g | g in generators
        ensures !Fails(advance, g)
      {
        var i :| 0 <= i < |generators| && generators[i] == g;
        assert Advances(generators)[i] == Advance(g);
        assert Advance(g) in multiset(Advances(generators));
        assert Advance(g) in multiset(done);
      }
    }
  }

  lemma {:induction false} TaskLeaves(
    generators: seq<GeneratorId>, advance: Advancing, done: seq<Action>, e: Exception)
    requires done != [] && |generators| != 1 && multiset(done) <= multiset(Advances(generators))
    requires done[|done| - 1].Advance? && advance(done[|done| - 1].generator) == Some(e) && e.Exiting?
    ensures CleanedUp(generators, advance, done, Raised(e))
  {
    assert Advance(done[|done| - 1].generator) in done;
    assert RaisedByOne(advance, done, e);
  }

  class DependencyCleanupGroup {
    var generators: seq<GeneratorId>
    var closed: bool
    /** All that was done to the generators. */
    var log: seq<Action>

    constructor (generators: seq<GeneratorId>)
      ensures this.generators == generators && !closed && log == []
    {
      this.generators, closed, log := generators, false, [];
    }

    /** A closed group takes no further generators. */
    method Add(generator: GeneratorId) returns (ok: bool)
      modifies this`generators
      ensures ok == !closed
      ensures generators == if ok then old(generators) + [generator] else old(generators)
    {
      if closed { return false; }
      generators := generators + [generator];
      ok := true;
    }

    /**
     Closing cleans up the registered generators, or throws the exception into them in
     the order of registration. It can be done once.
     */
    method Close(exc: Option<Exception>, advance: Advancing, answer: Answering) returns (r: CloseResult)
      modifies this`closed, this`log
      ensures closed
      ensures old(closed) <==> r == AlreadyClosed
      ensures old(closed) ==> log == old(log)
      ensures !old(closed) && exc == None ==>
                old(log) <= log && CleanedUp(generators, advance, log[|old(log)|..], r)
      ensures !old(closed) && exc.Some? ==>
                && log == old(log) + Throws(Reached(generators, exc.value, answer), exc.value)
                && r == ThrowResult(generators, exc.value, answer)
    {
      if closed { return AlreadyClosed; }
      closed := true;
      if exc == None {
        r := Cleanup(advance);
      } else {
        r := ThrowAll(exc.value, answer);
      }
    }

    /** `_cleanup`: a single generator is advanced here and now, several by tasks. */
    method Cleanup(advance: Advancing) returns (r: CloseResult)
      modifies this`log
      ensures old(log) <= log && CleanedUp(generators, advance, log[|old(log)|..], r)
      ensures r != AlreadyClosed
    {
      if |generators| == 1 {
        assert Advances(generators) == [Advance(generators[0])];
        log := log + [Advance(generators[0])];
        var raised := advance(generators[0]);
        r := if raised.Some? then Raised(raised.value) else Closed;
      } else {
        r := RunTasks(advance);
      }
    }

    /** The task group, until its tasks are done or one leaves it at once. */
    method RunTasks(advance: Advancing) returns (r: CloseResult)
      requires |generators| != 1
      modifies this`log
      ensures old(log) <= log && CleanedUp(generators, advance, log[|old(log)|..], r)
      ensures r != AlreadyClosed
    {
      var waiting := multiset(Advances(generators));
      var exceptions, left := [], None;
      while waiting != multiset{} && left == None
        invariant old(log) <= log
        invariant left == None ==> Running(generators, advance, log[|old(log)|..], waiting, exceptions)
        invariant left.Some? ==> CleanedUp(generators, advance, log[|old(log)|..], Raised(left.value))
        decreases |waiting|
      {
        waiting, exceptions, left := NextTask(advance, waiting, exceptions, |old(log)|);
      }
      if left.Some? {
        return Raised(left.value);
      }
      TasksCleanUp(generators, advance, log[|old(log)|..], exceptions);
      r := if exceptions == [] then Closed else Failed(exceptions);
    }

    /** Any task is next. It is run, or cancelled if one has raised before. */
    method NextTask(advance: Advancing, before: multiset<Action>, sofar: seq<Exception>, ghost start: nat)
      returns (waiting: multiset<Action>, exceptions: seq<Exception>, left: Option<Exception>)
      requires |generators| != 1 && before != multiset{}
      requires start <= |log| && Running(generators, advance, log[start..], before, sofar)
      modifies this`log
      ensures old(log) <= log && |waiting| < |before|
      ensures left == None ==> Running(generators, advance, log[start..], waiting, exceptions)
      ensures left.Some? ==> CleanedUp(generators, advance, log[start..], Raised(left.value))
    {
      var task :| task in before;
      AdvancesOnly(generators, task);
      waiting, exceptions, left := before - multiset{task}, sofar, None;
      var cancelled: bool, leaves: bool := *, *;
      if sofar == [] || !cancelled {
        ghost var done := log[start..];
        var raised := RunTask(advance, task.generator, sofar != []);
        assert log[start..] == done + [task];
        TaskRuns(generators, advance, done, before, sofar, task.generator, raised.Some?);
        if raised.Some? {
          exceptions := sofar + [raised.value];
          if raised.value.Exiting? && leaves {
            TaskLeaves(generators, advance, done + [task], raised.value);
            left := raised;
          }
        }
      }
    }

    /** One task. What it raises may be lost to a cancellation, or be one itself. */
    method RunTask(advance: Advancing, generator: GeneratorId, failed: bool) returns (raised: Option<Exception>)
      modifies this`log
      ensures log == old(log) + [Advance(generator)]
      ensures raised.Some? ==> raised == advance(generator)
      ensures raised.None? ==> failed || !Fails(advance, generator)
    {
      log := log + [Advance(generator)];
      raised := advance(generator);
      var cancelled: bool := *;
      if raised.Some? && cancelled && (failed || raised.value.Exiting?) {
        raised := None;
      }
    }

    /** `_throw`: from one generator to the next, until one answers with what is not caught. */
    method ThrowAll(exc: Exception, answer: Answering) returns (r: CloseResult)
      modifies this`log
      ensures log == old(log) + Throws(Reached(generators, exc, answer), exc)
      ensures r == ThrowResult(generators, exc, answer)
    {
      var exceptions := [];
      for i := 0 to |generators|
        invariant log == old(log) + Throws(generators[..i], exc)
        invariant exceptions == NewExceptions(generators[..i], exc, answer)
        invariant Escaped(generators[..i], exc, answer) == None
      {
        log := log + [Throw(generators[i], exc)];
        var a := answer(generators[i], exc);
        ThrowOnce(generators, exc, answer, i);
        if a.Raises? {
          if a.exc.Exiting? {
            return Raised(a.exc);
          }
          if a.exc != exc {
            exceptions := exceptions + [a.exc];
          }
        }
      }
      assert generators[..|generators|] == generators;
      ReachedConcat(generators, [], exc, answer);
      assert generators + [] == generators;
      r := if exceptions == [] then Closed else Failed(exceptions);
    }
  }

  /** One more generator, when no answer ahead of it escaped. */
  lemma {:induction false} ThrowOnce(generators: seq<GeneratorId>, exc: Exception, answer: Answering, i: nat)
    requires i < |generators| && Escaped(generators[..i], exc, answer) == None
    ensures Throws(generators[..i + 1], exc) == Throws(generators[..i], exc) + [Throw(generators[i], exc)]
    ensures var a := answer(generators[i], exc);
            if a.Escapes() then
              && Reached(generators, exc, answer) == generators[..i + 1]
              && Escaped(generators, exc, answer) == Some(a.exc)
            else
              && Escaped(generators[..i + 1], exc, answer) == None
              && NewExceptions(generators[..i + 1], exc, answer)
              == NewExceptions(generators[..i], exc, answer) + if a.Raises? && a.exc != exc then [a.exc] else []
  {
    var before, here := generators[..i], [generators[i]];
    assert generators[..i + 1] == before + here && generators == before + generators[i..];
    ReachedConcat(before, here, exc, answer);
    ReachedConcat(before, generators[i..], exc, answer);
    NewExceptionsConcat(before, here, exc, answer);
    assert here[1..] == [] && NewExceptions([], exc, answer) == [] && Escaped([], exc, answer) == None;
    assert generators[i..][0] == generators[i];
  }
}
