/** The per-frame spell evaluation driver: replay the persisted spell words
    on a fresh runtime, run the staging words if the spell succeeded, pick the
    fields to display, and keep one visibility toggle per field kind.

    The runtime itself is not part of this model: it is a value of type `R`,
    a call is a step function `call` that returns the runtime it leaves behind
    together with the error it reported, if any, and `top` observes the field
    on top of the runtime's stack. */
module GameFrame {

  import opened Basics
  import opened WordTable
  import W = WorldSampling

  /** The result of one `rt.call(f)`: the runtime as the call left it (a
      failing call may still have changed it) and the error it returned. */
  datatype Step<R, E> = Step(rt: R, err: Option<E>)

  /** The result of a loop over calls, with the number of calls it made. */
  datatype Run<R, E> = Run(rt: R, err: Option<E>, calls: nat)

  datatype SpellState<T> = SpellState(spell: T, staging: T)

  /** The fields a frame displays and the error it reports. */
  datatype Frame<G, E> = Frame(fields: SpellState<G>, error: Option<E>)

  // ---------------------------------------------------------------------------
  // The two evaluation loops, as functions

  /** The spell loop: call each function in order and stop after the first
      call that fails. */
  function RunSpell<R, E>(call: (R, Function) -> Step<R, E>, rt: R, fs: seq<Function>): (r: Run<R, E>)
    ensures r.calls <= |fs|
    ensures r.err.None? ==> r.calls == |fs|
    ensures r.err.Some? ==> r.calls >= 1
    decreases |fs|
  {
    if fs == [] then Run(rt, None, 0)
    else
      var s := call(rt, fs[0]);
      if s.err.Some? then Run(s.rt, s.err, 1)
      else
        var r := RunSpell(call, s.rt, fs[1..]);
        Run(r.rt, r.err, r.calls + 1)
  }

  /** The staging loop: call every function in order, keeping the most
      recent error (or `err` if no call fails). A recorded error is never
      cleared, and the first call's failure is never lost. */
  function RunStaging<R, E>(call: (R, Function) -> Step<R, E>, rt: R, fs: seq<Function>,
                            err: Option<E>): (r: Step<R, E>)
    ensures err.Some? ==> r.err.Some?
    ensures |fs| > 0 && call(rt, fs[0]).err.Some? ==> r.err.Some?
    decreases |fs|
  {
    if fs == [] then Step(rt, err)
    else
      var s := call(rt, fs[0]);
      RunStaging(call, s.rt, fs[1..], if s.err.Some? then s.err else err)
  }

  /** One frame of `Game::ui`'s evaluation, from the runtime `initial`
      (`Runtime::default()`). A failed spell is the frame's error, and any
      error shows `Uniform(0.0)` as the staging field. */
  function EvaluateFrame<R, E, G>(call: (R, Function) -> Step<R, E>, top: R -> Option<G>,
                                  uniformZero: G, initial: R,
                                  words: SpellState<seq<Function>>): (f: Frame<G, E>)
    ensures RunSpell(call, initial, words.spell).err.Some? ==> f.error == RunSpell(call, initial, words.spell).err
    ensures f.error.Some? ==> f.fields.staging == uniformZero
  {
    var s := RunSpell(call, initial, words.spell);
    var spellField := top(s.rt).GetOr(uniformZero);
    if s.err.Some? then
      Frame(SpellState(spellField, uniformZero), s.err)
    else
      var t := RunStaging(call, s.rt, words.staging, None);
      Frame(SpellState(spellField, if t.err.None? then top(t.rt).GetOr(uniformZero) else uniformZero), t.err)
  }

  /** The functions a frame passes to `call`, in order. */
  function CallsMade<R, E>(call: (R, Function) -> Step<R, E>, initial: R,
                           words: SpellState<seq<Function>>): seq<Function>
  {
    var s := RunSpell(call, initial, words.spell);
    words.spell[..s.calls] + if s.err.None? then words.staging else []
  }

  // ---------------------------------------------------------------------------
  // A reference semantics by position

  /** The runtime after calling fs[0], ..., fs[k-1] in order, whatever each returned. */
  function StateAfter<R, E>(call: (R, Function) -> Step<R, E>, rt: R, fs: seq<Function>, k: nat): R
    requires k <= |fs|
    decreases k
  {
    if k == 0 then rt else call(StateAfter(call, rt, fs, k - 1), fs[k - 1]).rt
  }

  /** The error the call of fs[k] reports when fs[0], ..., fs[k] run in order. */
  function ErrorAt<R, E>(call: (R, Function) -> Step<R, E>, rt: R, fs: seq<Function>, k: nat): Option<E>
    requires k < |fs|
  {
    call(StateAfter(call, rt, fs, k), fs[k]).err
  }

  /** The error of the last failing call among the first k, or `err` if none failed. */
  function LastError<R, E>(call: (R, Function) -> Step<R, E>, rt: R, fs: seq<Function>, k: nat,
                           err: Option<E>): Option<E>
    requires k <= |fs|
    decreases k
  {
    if k == 0 then err
    else if ErrorAt(call, rt, fs, k - 1).Some? then ErrorAt(call, rt, fs, k - 1)
    else LastError(call, rt, fs, k - 1, err)
  }

  /** Calling the first k functions of a prefix is calling the first k of the whole. */
  lemma {:induction false} StateAfterPrefix<R, E>(call: (R, Function) -> Step<R, E>, rt: R,
                                                  a: seq<Function>, b: seq<Function>, k: nat)
    requires k <= |a|
    ensures StateAfter(call, rt, a + b, k) == StateAfter(call, rt, a, k)
  {
    if k > 0 {
      StateAfterPrefix(call, rt, a, b, k - 1);
      assert (a + b)[k - 1] == a[k - 1];
    }
  }

  /** Calling a + b is calling a, then b from where a left off. */
  lemma {:induction false} StateAfterConcat<R, E>(call: (R, Function) -> Step<R, E>, rt: R,
                                                  a: seq<Function>, b: seq<Function>, k: nat)
    requires k <= |b|
    ensures StateAfter(call, rt, a + b, |a| + k)
         == StateAfter(call, StateAfter(call, rt, a, |a|), b, k)
  {
    if k == 0 {
      StateAfterPrefix(call, rt, a, b, |a|);
    } else {
      StateAfterConcat(call, rt, a, b, k - 1);
      assert (a + b)[|a| + k - 1] == b[k - 1];
    }
  }

  /** While no call has failed, the spell loop is the rest of the loop run
      from the runtime reached so far. */
  lemma {:induction false} RunSpellFrom<R, E>(call: (R, Function) -> Step<R, E>, rt: R,
                                              fs: seq<Function>, i: nat)
    requires i <= |fs|
    requires forall j :: 0 <= j < i ==> ErrorAt(call, rt, fs, j).None?
    ensures RunSpell(call, rt, fs)
         == var r := RunSpell(call, StateAfter(call, rt, fs, i), fs[i..]); Run(r.rt, r.err, r.calls + i)
  {
    if i > 0 {
      RunSpellFrom(call, rt, fs, i - 1);
      assert ErrorAt(call, rt, fs, i - 1).None?;
      assert fs[i - 1..][0] == fs[i - 1];
      assert fs[i - 1..][1..] == fs[i..];
    }
  }

  lemma {:induction false} RunSpellScan<R, E>(call: (R, Function) -> Step<R, E>, rt: R,
                                              fs: seq<Function>, i: nat)
    requires i <= |fs|
    requires forall j :: 0 <= j < i ==> ErrorAt(call, rt, fs, j).None?
    ensures var r := RunSpell(call, rt, fs);
            && (r.err.None? <==> forall j :: 0 <= j < |fs| ==> ErrorAt(call, rt, fs, j).None?)
            && (r.err.None? ==> r.rt == StateAfter(call, rt, fs, |fs|))
            && (r.err.Some? ==> r.calls <= |fs|
                                && r.err == ErrorAt(call, rt, fs, r.calls - 1)
                                && r.rt == StateAfter(call, rt, fs, r.calls)
                                && forall j :: 0 <= j < r.calls - 1 ==> ErrorAt(call, rt, fs, j).None?)
    decreases |fs| - i
  {
    RunSpellFrom(call, rt, fs, i);
    if i == |fs| {
      assert fs[i..] == [];
    } else if ErrorAt(call, rt, fs, i).Some? {
      assert fs[i..][0] == fs[i];
    } else {
      RunSpellScan(call, rt, fs, i + 1);
    }
  }

  /** The spell loop stops at the first failing call: it reports that call's
      error, has made exactly the calls up to and including it (none after),
      and every earlier call succeeded. Without a failure it makes every call. */
  lemma SpellStopsAtFirstError<R, E>(call: (R, Function) -> Step<R, E>, rt: R, fs: seq<Function>)
    ensures var r := RunSpell(call, rt, fs);
            && (r.err.None? <==> forall j :: 0 <= j < |fs| ==> ErrorAt(call, rt, fs, j).None?)
            && (r.err.None? ==> r.calls == |fs| && r.rt == StateAfter(call, rt, fs, |fs|))
            && (r.err.Some? ==> 1 <= r.calls <= |fs|
                                && r.err == ErrorAt(call, rt, fs, r.calls - 1)
                                && r.rt == StateAfter(call, rt, fs, r.calls)
                                && forall j :: 0 <= j < r.calls - 1 ==> ErrorAt(call, rt, fs, j).None?)
  {
    RunSpellScan(call, rt, fs, 0);
  }

  lemma {:induction false} RunStagingFrom<R, E>(call: (R, Function) -> Step<R, E>, rt: R,
                                                fs: seq<Function>, err: Option<E>, i: nat)
    requires i <= |fs|
    ensures RunStaging(call, rt, fs, err)
         == RunStaging(call, StateAfter(call, rt, fs, i), fs[i..], LastError(call, rt, fs, i, err))
  {
    if i > 0 {
      RunStagingFrom(call, rt, fs, err, i - 1);
      assert fs[i - 1..][0] == fs[i - 1];
      assert fs[i - 1..][1..] == fs[i..];
    }
  }

  /** With no failing call LastError is the initial error; starting from no
      error, it is missing exactly when no call fails. */
  lemma {:induction false} LastErrorWithoutFailure<R, E>(call: (R, Function) -> Step<R, E>, rt: R,
                                                         fs: seq<Function>, k: nat, err: Option<E>)
    requires k <= |fs|
    ensures (forall j :: 0 <= j < k ==> ErrorAt(call, rt, fs, j).None?) ==> LastError(call, rt, fs, k, err) == err
    ensures err.None? ==> (LastError(call, rt, fs, k, err).None? <==> forall j :: 0 <= j < k ==> ErrorAt(call, rt, fs, j).None?)
  {
    if k > 0 {
      LastErrorWithoutFailure(call, rt, fs, k - 1, err);
    }
  }

  /** LastError is the error of the last failing call. */
  lemma {:induction false} LastErrorIsLastFailure<R, E>(call: (R, Function) -> Step<R, E>, rt: R,
                                                        fs: seq<Function>, k: nat, err: Option<E>, j: nat)
    requires j < k <= |fs|
    requires ErrorAt(call, rt, fs, j).Some?
    requires forall l :: j < l < k ==> ErrorAt(call, rt, fs, l).None?
    ensures LastError(call, rt, fs, k, err) == ErrorAt(call, rt, fs, j)
  {
    if k - 1 != j {
      LastErrorIsLastFailure(call, rt, fs, k - 1, err, j);
    }
  }

  /** The staging loop makes every call, even after one fails, and ends with
      the error of the last failing call (or the error it started with). */
  lemma StagingCallsAll<R, E>(call: (R, Function) -> Step<R, E>, rt: R, fs: seq<Function>, err: Option<E>)
    ensures RunStaging(call, rt, fs, err) == Step(StateAfter(call, rt, fs, |fs|), LastError(call, rt, fs, |fs|, err))
  {
    RunStagingFrom(call, rt, fs, err, |fs|);
    assert fs[|fs|..] == [];
  }

  /** Calling a + b fails at position j exactly when a fails there, or, past
      the end of a, when b fails at j - |a| from where a left off. */
  lemma ErrorAtConcat<R, E>(call: (R, Function) -> Step<R, E>, rt: R,
                            a: seq<Function>, b: seq<Function>, j: nat)
    requires j < |a| + |b|
    ensures ErrorAt(call, rt, a + b, j)
         == if j < |a| then ErrorAt(call, rt, a, j)
            else ErrorAt(call, StateAfter(call, rt, a, |a|), b, j - |a|)
  {
    if j < |a| {
      StateAfterPrefix(call, rt, a, b, j);
      assert (a + b)[j] == a[j];
    } else {
      StateAfterConcat(call, rt, a, b, j - |a|);
      assert (a + b)[j] == b[j - |a|];
    }
  }

  /** The displayed spell field is the top field after the spell loop, even
      when that loop stopped on an error. When the spell fails, its error is
      the frame's error, the staging field is `Uniform(0.0)`, and only spell
      functions up to the failing one are ever called. */
  lemma FrameAfterSpell<R, E, G>(call: (R, Function) -> Step<R, E>, top: R -> Option<G>,
                                 uniformZero: G, initial: R, words: SpellState<seq<Function>>)
    ensures var f := EvaluateFrame(call, top, uniformZero, initial, words);
            var s := RunSpell(call, initial, words.spell);
            && f.fields.spell == top(StateAfter(call, initial, words.spell, s.calls)).GetOr(uniformZero)
            && (s.err.Some? ==> && f.error == s.err
                                && f.fields.staging == uniformZero
                                && CallsMade(call, initial, words) == words.spell[..s.calls])
            && (s.err.None? ==> CallsMade(call, initial, words) == words.spell + words.staging)
  {
    SpellStopsAtFirstError(call, initial, words.spell);
  }

  /** A frame reports no error exactly when no call of the spell words
      followed by the staging words fails; then the staging field shown is the
      top field after all those calls. Any error shows `Uniform(0.0)` instead. */
  lemma FrameAfterStaging<R, E, G>(call: (R, Function) -> Step<R, E>, top: R -> Option<G>,
                                   uniformZero: G, initial: R, words: SpellState<seq<Function>>)
    ensures var f := EvaluateFrame(call, top, uniformZero, initial, words);
            var all := words.spell + words.staging;
            && (f.error.None? <==> forall j :: 0 <= j < |all| ==> ErrorAt(call, initial, all, j).None?)
            && (f.error.Some? ==> f.fields.staging == uniformZero)
            && (f.error.None? ==> f.fields.staging == top(StateAfter(call, initial, all, |all|)).GetOr(uniformZero))
    ensures var s := RunSpell(call, initial, words.spell);
            s.err.None? ==>
              EvaluateFrame(call, top, uniformZero, initial, words).error
              == LastError(call, s.rt, words.staging, |words.staging|, None)
  {
    var s := RunSpell(call, initial, words.spell);
    var all := words.spell + words.staging;
    SpellStopsAtFirstError(call, initial, words.spell);
    if s.err.None? {
      StagingCallsAll(call, s.rt, words.staging, None);
      LastErrorWithoutFailure(call, s.rt, words.staging, |words.staging|, None);
      StateAfterConcat(call, initial, words.spell, words.staging, |words.staging|);
      forall j | 0 <= j < |all|
        ensures ErrorAt(call, initial, all, j)
             == if j < |words.spell| then ErrorAt(call, initial, words.spell, j)
                else ErrorAt(call, s.rt, words.staging, j - |words.spell|)
      {
        ErrorAtConcat(call, initial, words.spell, words.staging, j);
      }
      if EvaluateFrame(call, top, uniformZero, initial, words).error.Some? {
        var j :| 0 <= j < |words.staging| && ErrorAt(call, s.rt, words.staging, j).Some?;
        assert ErrorAt(call, initial, all, |words.spell| + j).Some?;
      }
    } else {
      var k := s.calls - 1;
      ErrorAtConcat(call, initial, words.spell, words.staging, k);
    }
  }

  // ---------------------------------------------------------------------------
  // The field kinds the grid shows and the game state

  datatype AnyFieldKind = Spell | Staging
  datatype ScalarFieldKind = Density
  /** The vector field kinds have no variants, so only the scalar tag can occur. */
  datatype GenericFieldKind = Scalar(scalar: ScalarFieldKind)
  datatype FieldKind = Any(any: AnyFieldKind) | Typed(typed: GenericFieldKind)

  /** Every field kind, in enumeration order. */
  const AllFieldKinds: seq<FieldKind> := [Any(Spell), Any(Staging), Typed(Scalar(ScalarFieldKind.Density))]

  lemma AllFieldKindsEnumerates(k: FieldKind)
    ensures k in AllFieldKinds
    ensures forall i, j :: 0 <= i < j < |AllFieldKinds| ==> AllFieldKinds[i] != AllFieldKinds[j]
  {
    match k
    case Any(Spell) => assert AllFieldKinds[0] == k;
    case Any(Staging) => assert AllFieldKinds[1] == k;
    case Typed(Scalar(Density)) => assert AllFieldKinds[2] == k;
  }

  /** A toggle's value after the frame: its stored value (false when new),
      flipped when it was clicked. */
  function Toggled(visible: map<FieldKind, bool>, clicked: set<FieldKind>, k: FieldKind): bool
  {
    (if k in visible then visible[k] else false) != (k in clicked)
  }

  class Game {
    /** The persisted words: the committed spell and the staged words. */
    var spell: SpellState<seq<Function>>
    /** Which field kinds the grid plots. */
    var fieldsVisible: map<FieldKind, bool>

    constructor (words: SpellState<seq<Function>>)
      ensures spell == words && fieldsVisible == map[]
    {
      spell := words;
      fieldsVisible := map[];
    }

    /** The evaluation part of `ui`: replay the spell, then the staging
        words if the spell succeeded, and pick the displayed fields.
        `called` records the functions passed to `call`, in order. */
    method Evaluate<R, E, G>(call: (R, Function) -> Step<R, E>, top: R -> Option<G>,
                             uniformZero: G, initial: R)
      returns (fields: SpellState<G>, error: Option<E>, ghost called: seq<Function>)
      ensures Frame(fields, error) == EvaluateFrame(call, top, uniformZero, initial, spell)
      ensures called == CallsMade(call, initial, spell)
    {
      var rt := initial;
      error := None;
      called := [];
      var i := 0;
      while i < |spell.spell|
        invariant 0 <= i <= |spell.spell|
        invariant error.None?
        invariant called == spell.spell[..i]
        invariant RunSpell(call, initial, spell.spell)
               == var r := RunSpell(call, rt, spell.spell[i..]); Run(r.rt, r.err, r.calls + i)
      {
        assert spell.spell[i..][0] == spell.spell[i];
        assert spell.spell[i..][1..] == spell.spell[i + 1..];
        var s := call(rt, spell.spell[i]);
        called := called + [spell.spell[i]];
        rt := s.rt;
        if s.err.Some? {
          error := s.err;
          break;
        }
        i := i + 1;
      }
      ghost var spellRt := rt;
      assert RunSpell(call, initial, spell.spell).rt == rt;
      assert RunSpell(call, initial, spell.spell).err == error;
      var spellField := top(rt).GetOr(uniformZero);
      if error.None? {
        assert called == spell.spell;
        var j := 0;
        while j < |spell.staging|
          invariant 0 <= j <= |spell.staging|
          invariant called == spell.spell + spell.staging[..j]
          invariant RunStaging(call, spellRt, spell.staging, None)
                 == RunStaging(call, rt, spell.staging[j..], error)
        {
          assert spell.staging[j..][0] == spell.staging[j];
          assert spell.staging[j..][1..] == spell.staging[j + 1..];
          var s := call(rt, spell.staging[j]);
          called := called + [spell.staging[j]];
          rt := s.rt;
          if s.err.Some? {
            error := s.err;
          }
          j := j + 1;
        }
        assert spell.staging[j..] == [];
        assert spell.staging[..j] == spell.staging;
      }
      var stagingField := if error.None? then top(rt).GetOr(uniformZero) else uniformZero;
      fields := SpellState(spellField, stagingField);
    }

    /** The first grid row: every kind gets an entry (false when new) and a
        clicked toggle flips. Entries are only ever added, never removed. */
    method ShowToggles(clicked: set<FieldKind>)
      modifies this`fieldsVisible
      ensures forall k :: k in fieldsVisible
      ensures forall k :: fieldsVisible[k] == Toggled(old(fieldsVisible), clicked, k)
    {
      var i := 0;
      while i < |AllFieldKinds|
        invariant 0 <= i <= |AllFieldKinds|
        invariant forall k :: k in fieldsVisible <==> k in old(fieldsVisible) || k in AllFieldKinds[..i]
        invariant forall k :: k in AllFieldKinds[..i] ==> fieldsVisible[k] == Toggled(old(fieldsVisible), clicked, k)
        invariant forall k :: k in old(fieldsVisible) && k !in AllFieldKinds[..i] ==> fieldsVisible[k] == old(fieldsVisible)[k]
      {
        var k := AllFieldKinds[i];
        if k !in fieldsVisible {
          fieldsVisible := fieldsVisible[k := false];
        }
        if k in clicked {
          fieldsVisible := fieldsVisible[k := !fieldsVisible[k]];
        }
        assert AllFieldKinds[..i + 1] == AllFieldKinds[..i] + [k];
        i := i + 1;
      }
      forall k ensures k in AllFieldKinds[..i] {
        AllFieldKindsEnumerates(k);
        assert AllFieldKinds[..i] == AllFieldKinds;
      }
    }

    /** The second grid row: the kinds whose toggle is on, in enumeration order.
        Every kind has an entry, so the lookup of each toggle cannot fail. */
    method PlottedKinds() returns (plotted: seq<FieldKind>)
      requires forall k :: k in fieldsVisible
      ensures forall k :: k in plotted <==> fieldsVisible[k]
      ensures forall i, j :: 0 <= i < j < |plotted| ==> plotted[i] != plotted[j]
    {
      plotted := [];
      var i := 0;
      while i < |AllFieldKinds|
        invariant 0 <= i <= |AllFieldKinds|
        invariant forall k :: k in plotted <==> k in AllFieldKinds[..i] && fieldsVisible[k]
        invariant forall a, b :: 0 <= a < b < |plotted| ==> plotted[a] != plotted[b]
      {
        var k := AllFieldKinds[i];
        assert k !in AllFieldKinds[..i];
        if fieldsVisible[k] {
          plotted := plotted + [k];
        }
        assert AllFieldKinds[..i + 1] == AllFieldKinds[..i] + [k];
        i := i + 1;
      }
      forall k ensures k in AllFieldKinds[..i] {
        AllFieldKindsEnumerates(k);
        assert AllFieldKinds[..i] == AllFieldKinds;
      }
    }

    /** One frame of `Game::ui`: evaluate the words, show the toggles, and
        report the evaluated fields and the kinds to plot. The persisted words
        are only read. */
    method Ui<R, E, G>(call: (R, Function) -> Step<R, E>, top: R -> Option<G>,
                       uniformZero: G, initial: R, clicked: set<FieldKind>)
      returns (fields: SpellState<G>, error: Option<E>, plotted: seq<FieldKind>)
      modifies this`fieldsVisible
      ensures spell == old(spell)
      ensures Frame(fields, error) == EvaluateFrame(call, top, uniformZero, initial, spell)
      ensures forall k :: k in fieldsVisible && fieldsVisible[k] == Toggled(old(fieldsVisible), clicked, k)
      ensures forall k :: k in plotted <==> Toggled(old(fieldsVisible), clicked, k)
    {
      ghost var called;
      fields, error, called := Evaluate(call, top, uniformZero, initial);
      ShowToggles(clicked);
      plotted := PlottedKinds();
    }
  }

  // ---------------------------------------------------------------------------
  // Density sampled from the static polygons

  datatype StaticObject = StaticObject(shape: seq<W.Vec2>, density: real)

  /** The offset added to a sample point before the polygon test. */
  const Nudge: real := 0.00001

  /** The first object whose polygon contains q, by position in `objects`. */
  predicate FirstContaining(objects: seq<StaticObject>, polygonContains: (seq<W.Vec2>, W.Vec2) -> bool,
                            q: W.Vec2, i: int)
  {
    0 <= i < |objects| && polygonContains(objects[i].shape, q)
    && forall j :: 0 <= j < i ==> !polygonContains(objects[j].shape, q)
  }

  /** The density of the first object containing q, or 0.0 if none does. */
  function DensityAt(objects: seq<StaticObject>, polygonContains: (seq<W.Vec2>, W.Vec2) -> bool,
                     q: W.Vec2): (d: real)
    ensures (exists i :: FirstContaining(objects, polygonContains, q, i) && d == objects[i].density)
         || (d == 0.0 && forall i :: 0 <= i < |objects| ==> !polygonContains(objects[i].shape, q))
    decreases |objects|
  {
    if objects == [] then 0.0
    else if polygonContains(objects[0].shape, q) then
      assert FirstContaining(objects, polygonContains, q, 0);
      objects[0].density
    else
      var d := DensityAt(objects[1..], polygonContains, q);
      DensityAtTail(objects, polygonContains, q, d);
      d
  }

  /** A reading of the tail is the reading of the whole when the head misses q. */
  lemma DensityAtTail(objects: seq<StaticObject>, polygonContains: (seq<W.Vec2>, W.Vec2) -> bool,
                      q: W.Vec2, d: real)
    requires objects != [] && !polygonContains(objects[0].shape, q)
    requires (exists i :: FirstContaining(objects[1..], polygonContains, q, i) && d == objects[1..][i].density)
          || (d == 0.0 && forall i :: 0 <= i < |objects[1..]| ==> !polygonContains(objects[1..][i].shape, q))
    ensures (exists i :: FirstContaining(objects, polygonContains, q, i) && d == objects[i].density)
         || (d == 0.0 && forall i :: 0 <= i < |objects| ==> !polygonContains(objects[i].shape, q))
  {
  }

  /** `FieldsSource::sample_scalar_field`: the density at (x, y), tested at
      the point nudged by 1e-5 in both coordinates. */
  function SampleScalarField(objects: seq<StaticObject>, polygonContains: (seq<W.Vec2>, W.Vec2) -> bool,
                             kind: ScalarFieldKind, x: real, y: real): (d: real)
    ensures var q := W.Vec2(x + Nudge, y + Nudge);
            || (exists i :: FirstContaining(objects, polygonContains, q, i) && d == objects[i].density)
            || (d == 0.0 && forall i :: 0 <= i < |objects| ==> !polygonContains(objects[i].shape, q))
  {
    match kind
    case Density() => DensityAt(objects, polygonContains, W.Vec2(x + Nudge, y + Nudge))
  }
}
