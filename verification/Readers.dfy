/**
 Evaluations in the running service. Each is a reader beside the machine's transactions: it
 loads the flag and, later, the flag's rules, and nothing holds the two reads together.
 */
module Readers {
  import opened Wrappers
  import opened Schema
  import opened Errors
  import opened Evaluation
  import opened Interleaving

  /** at, from and to are the times of the first and the last read. */
  datatype Progress =
    | Begun
    | HasFlag(at: nat, flag: Uuid, row: FlagRow)
    | Told(from: nat, to: nat, verdict: Result<bool, Error>)
    | Broken(error: Error)

  /** An evaluateFlag call. */
  datatype Reader = Reader(key: string, environment: string, ctx: EvaluationContext, progress: Progress)

  /** The machine and its readers; time counts the machine's steps. */
  datatype System = System(lib: Library, base: State, time: nat, readers: map<nat, Reader>)

  datatype Move =
    | Base(step: Step)
    | Begin(n: nat, key: string, environment: string, ctx: EvaluationContext)
    | LoadFlag(n: nat)
    | LoadRules(n: nat)
    | Break(n: nat)

  predicate Possible(y: System, move: Move) {
    match move
    case Base(step) => Enabled(y.base, step)
    case Begin(n, _, _, _) => n !in y.readers
    case LoadFlag(n) => n in y.readers && y.readers[n].progress.Begun?
    case LoadRules(n) => n in y.readers && y.readers[n].progress.HasFlag?
    case Break(n) => n in y.readers && !y.readers[n].progress.Told? && !y.readers[n].progress.Broken?
  }

  function AfterBegin(ctx: EvaluationContext): Progress {
    if ctx.userId == "" then Broken(InvalidUserId) else Begun
  }

  function AfterLoadFlag(y: System, r: Reader): Progress {
    var c := y.base.committed;
    match FindFlag(c.flags, r.key, r.environment)
    case None => Told(y.time, y.time, Success(false))
    case Some(f) =>
      if c.flags[f].enabled then HasFlag(y.time, f, c.flags[f]) else Told(y.time, y.time, Success(false))
  }

  function AfterLoadRules(y: System, r: Reader): Progress
    requires r.progress.HasFlag?
  {
    var rules := RulesOf(y.base.committed.rules, r.progress.flag);
    Told(r.progress.at, y.time, AfterRules(y.lib, r.progress.row.strategy, r.ctx, rules))
  }

  function Moved(y: System, n: nat, r: Reader, progress: Progress): System {
    y.(readers := y.readers[n := r.(progress := progress)])
  }

  function Next(y: System, move: Move): System
    requires Possible(y, move)
  {
    match move
    case Base(step) => y.(base := After(y.base, step), time := y.time + 1)
    case Begin(n, key, environment, ctx) => Moved(y, n, Reader(key, environment, ctx, Begun), AfterBegin(ctx))
    case LoadFlag(n) => Moved(y, n, y.readers[n], AfterLoadFlag(y, y.readers[n]))
    case LoadRules(n) => Moved(y, n, y.readers[n], AfterLoadRules(y, y.readers[n]))
    case Break(n) => Moved(y, n, y.readers[n], Broken(Operation(ConnectionFailure)))
  }

  ghost predicate Lawful(y: System, moves: seq<Move>)
    decreases |moves|, 0
  {
    moves != [] ==>
      && Lawful(y, moves[..|moves| - 1])
      && Possible(End(y, moves[..|moves| - 1]), moves[|moves| - 1])
  }

  ghost function End(y: System, moves: seq<Move>): System
    requires Lawful(y, moves)
    decreases |moves|, 1
  {
    if moves == [] then y else Next(End(y, moves[..|moves| - 1]), moves[|moves| - 1])
  }

  lemma OneMove(y: System, moves: seq<Move>, move: Move)
    requires Lawful(y, moves) && Possible(End(y, moves), move)
    ensures Lawful(y, moves + [move]) && End(y, moves + [move]) == Next(End(y, moves), move)
  {
    assert (moves + [move])[..|moves|] == moves;
  }

  // ---------------------------------------------------------------- the machine's run

  /** The machine's own steps. */
  function StepsOf(moves: seq<Move>): seq<Step> {
    if moves == [] then []
    else
      var last := moves[|moves| - 1];
      StepsOf(moves[..|moves| - 1]) + if last.Base? then [last.step] else []
  }

  /** Readers only read: the machine runs as it does without them. */
  lemma {:induction false} ReadersOnlyRead(y: System, moves: seq<Move>)
    requires Lawful(y, moves)
    ensures Legal(y.base, StepsOf(moves)) && End(y, moves).base == Final(y.base, StepsOf(moves))
    ensures End(y, moves).time == y.time + |StepsOf(moves)| && End(y, moves).lib == y.lib
    decreases |moves|
  {
    hide After, Enabled, AfterLoadFlag, AfterLoadRules;
    if moves != [] {
      var init, last := moves[..|moves| - 1], moves[|moves| - 1];
      ReadersOnlyRead(y, init);
      if last.Base? {
        Extend(y.base, StepsOf(init), last.step);
      } else {
        assert StepsOf(moves) == StepsOf(init);
      }
    }
  }

  /** A system at the start of its run. */
  function Starts(lib: Library, s: State): System {
    System(lib, s, 0, map[])
  }

  /** The committed tables of a run at a time. */
  ghost function TablesAt(s: State, steps: seq<Step>, n: nat): Tables
    requires Legal(s, steps) && n <= |steps|
  {
    StateAt(s, steps, n).committed
  }

  /** What a reader holds is what the tables said at the times of its reads. */
  ghost predicate ReadRight(lib: Library, s: State, steps: seq<Step>, r: Reader)
    requires Legal(s, steps)
  {
    match r.progress
    case Begun => r.ctx.userId != ""
    case HasFlag(at, f, row) =>
      && r.ctx.userId != "" && at <= |steps|
      && var c := TablesAt(s, steps, at);
         FindFlag(c.flags, r.key, r.environment) == Some(f) && c.flags[f] == row && row.enabled
    case Told(i, j, v) =>
      && r.ctx.userId != "" && i <= j <= |steps|
      && v == TwoReads(lib, TablesAt(s, steps, i), TablesAt(s, steps, j), r.key, r.environment, r.ctx)
    case Broken(e) => e == InvalidUserId || e == Operation(ConnectionFailure)
  }

  lemma StillReadRight(lib: Library, s: State, steps: seq<Step>, more: seq<Step>, r: Reader)
    requires Legal(s, steps) && Legal(s, steps + more) && ReadRight(lib, s, steps, r)
    ensures ReadRight(lib, s, steps + more, r)
  {
    hide TwoReads, FindFlag, StateAt, Legal;
    match r.progress
    case HasFlag(at, _, _) => StateAtPrefix(s, steps, more, at);
    case Told(i, j, _) =>
      StateAtPrefix(s, steps, more, i);
      StateAtPrefix(s, steps, more, j);
    case _ =>
  }

  lemma ReadRightAfter(s: State, steps: seq<Step>, y: System, n: nat, r: Reader)
    requires Legal(s, steps) && y.base == Final(s, steps) && y.time == |steps| && ReadRight(y.lib, s, steps, r)
    ensures r.progress.Begun? ==> ReadRight(y.lib, s, steps, r.(progress := AfterLoadFlag(y, r)))
    ensures r.progress.HasFlag? ==> ReadRight(y.lib, s, steps, r.(progress := AfterLoadRules(y, r)))
  {
    StateAtEnd(s, steps);
    hide FindFlag, StateAt, Legal, AfterRules, RulesOf;
  }

  ghost predicate AllReadRight(y: System, s: State, steps: seq<Step>)
    requires Legal(s, steps)
  {
    forall n :: n in y.readers ==> ReadRight(y.lib, s, steps, y.readers[n])
  }

  lemma ReadersMove(s: State, steps: seq<Step>, y: System, move: Move)
    requires Legal(s, steps) && y.base == Final(s, steps) && y.time == |steps| && AllReadRight(y, s, steps)
    requires Possible(y, move) && !move.Base?
    ensures Next(y, move).lib == y.lib && AllReadRight(Next(y, move), s, steps)
  {
    hide AfterLoadFlag, AfterLoadRules, TwoReads, FindFlag, StateAt, Legal, Final;
    match move
    case LoadFlag(n) => ReadRightAfter(s, steps, y, n, y.readers[n]);
    case LoadRules(n) => ReadRightAfter(s, steps, y, n, y.readers[n]);
    case _ =>
  }

  lemma MachineMoves(s: State, steps: seq<Step>, y: System, step: Step)
    requires Legal(s, steps) && Legal(s, steps + [step]) && AllReadRight(y, s, steps)
    requires Enabled(y.base, step)
    ensures Next(y, Base(step)).lib == y.lib && AllReadRight(Next(y, Base(step)), s, steps + [step])
  {
    hide ReadRight, Legal, Final, Enabled, After;
    forall n | n in y.readers
      ensures ReadRight(y.lib, s, steps + [step], y.readers[n])
    {
      StillReadRight(y.lib, s, steps, [step], y.readers[n]);
    }
  }

  /** The answer of every evaluation is that of its two reads, at two times of the run, the first not later. */
  lemma {:induction false} AnswersAreTwoReads(lib: Library, s: State, moves: seq<Move>)
    requires Lawful(Starts(lib, s), moves)
    ensures Legal(s, StepsOf(moves)) && AllReadRight(End(Starts(lib, s), moves), s, StepsOf(moves))
    ensures End(Starts(lib, s), moves).lib == lib
    decreases |moves|
  {
    ReadersOnlyRead(Starts(lib, s), moves);
    if moves != [] {
      var init, last := moves[..|moves| - 1], moves[|moves| - 1];
      AnswersAreTwoReads(lib, s, init);
      ReadersOnlyRead(Starts(lib, s), init);
      hide AllReadRight, Legal, Final, Possible, Next;
      if last.Base? {
        BaseIsPossible(End(Starts(lib, s), init), last.step);
        MachineMoves(s, StepsOf(init), End(Starts(lib, s), init), last.step);
      } else {
        assert StepsOf(moves) == StepsOf(init);
        ReadersMove(s, StepsOf(init), End(Starts(lib, s), init), last);
      }
    }
  }

  lemma BaseIsPossible(y: System, step: Step)
    ensures Possible(y, Base(step)) <==> Enabled(y.base, step)
  {
  }

  // ---------------------------------------------------------------- a reader around a run

  lemma StepsOfMore(moves: seq<Move>, move: Move)
    ensures StepsOf(moves + [move]) == StepsOf(moves) + if move.Base? then [move.step] else []
  {
    assert (moves + [move])[..|moves|] == moves;
  }

  lemma {:induction false} MachineRuns(y: System, before: seq<Move>, steps: seq<Step>) returns (moves: seq<Move>)
    requires Lawful(y, before) && Legal(End(y, before).base, steps)
    ensures Lawful(y, moves) && StepsOf(moves) == StepsOf(before) + steps
    ensures var z := End(y, before);
      End(y, moves) == z.(base := Final(z.base, steps), time := z.time + |steps|)
    decreases |steps|
  {
    hide Enabled, After;
    if steps == [] {
      moves := before;
    } else {
      var init, last := steps[..|steps| - 1], steps[|steps| - 1];
      moves := MachineRuns(y, before, init);
      assert steps == init + [last];
      OneMove(y, moves, Base(last));
      StepsOfMore(moves, Base(last));
      moves := moves + [Base(last)];
    }
  }

  /** An evaluation can read the flag before and the rules after any run. */
  lemma ReadsAround(
    lib: Library, s: State, steps: seq<Step>, f: Uuid, key: string, environment: string, ctx: EvaluationContext)
    returns (moves: seq<Move>)
    requires Legal(s, steps) && ctx.userId != ""
    requires FindFlag(s.committed.flags, key, environment) == Some(f) && s.committed.flags[f].enabled
    ensures Lawful(Starts(lib, s), moves) && StepsOf(moves) == steps
    ensures var y := End(Starts(lib, s), moves);
      && 0 in y.readers
      && y.readers[0] == Reader(key, environment, ctx, Told(0, |steps|,
           TwoReads(lib, s.committed, Final(s, steps).committed, key, environment, ctx)))
  {
    hide Enabled, After, FindFlag, RulesOf, AfterRules, Legal, Final;
    var y := Starts(lib, s);
    var r := Reader(key, environment, ctx, Begun);
    OneMove(y, [], Begin(0, key, environment, ctx));
    moves := [] + [Begin(0, key, environment, ctx)];
    OneMove(y, moves, LoadFlag(0));
    StepsOfMore([], Begin(0, key, environment, ctx));
    StepsOfMore(moves, LoadFlag(0));
    moves := moves + [LoadFlag(0)];
    moves := MachineRuns(y, moves, steps);
    OneMove(y, moves, LoadRules(0));
    StepsOfMore(moves, LoadRules(0));
    moves := moves + [LoadRules(0)];
    assert [] + steps == steps;
  }
}
