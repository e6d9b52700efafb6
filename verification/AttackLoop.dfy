/** src/aegis_agent/core/attack_loop.py: attempts grouped into sessions that expire. */
module AttackLoop {
  import opened Common
  import opened Lists

  /** One observation: the clock, the hashed session key and payload variant, and the listed artifacts. */
  datatype Observation = Observation(now: int, key: string, variant: string, srcIps: seq<string>, dstIps: seq<string>,
                                      files: seq<string>, attackTypes: seq<string>)

  datatype Session = Session(
    firstSeen: int,
    lastSeen: int,
    attempts: nat,
    variants: seq<string>,
    srcIps: seq<string>,
    dstIps: seq<string>,
    files: seq<string>,
    attackTypes: seq<string>,
    mutationDetected: bool)

  datatype LoopInfo = LoopInfo(attempts: nat, variantCount: nat, mutationDetected: bool, scoreBonus: int)

  // ---- Reference: sessions as a function of the history ----

  function Keyed(key: string): Observation -> bool {
    (o: Observation) => o.key == key
  }

  /** The observations of one key, in order. */
  function Of(history: seq<Observation>, key: string): seq<Observation> {
    Where(history, Keyed(key))
  }

  /** The longest suffix in which consecutive observations are at most `window` apart. */
  function CurrentRun(obs: seq<Observation>, window: int): seq<Observation> {
    if |obs| <= 1 then obs
    else
      var init, last := obs[..|obs| - 1], obs[|obs| - 1];
      if last.now - init[|init| - 1].now <= window then CurrentRun(init, window) + [last] else [last]
  }

  ghost predicate IsRun(obs: seq<Observation>, run: seq<Observation>, window: int) {
    && |run| <= |obs| && run == obs[|obs| - |run|..] && (obs != [] ==> |run| >= 1)
    && (forall i :: 0 < i < |run| ==> run[i].now - run[i - 1].now <= window)
    && (0 < |run| < |obs| ==> run[0].now - obs[|obs| - |run| - 1].now > window)
  }

  lemma RunExtends(obs: seq<Observation>, run: seq<Observation>, last: Observation, window: int)
    requires IsRun(obs, run, window) && obs != [] && last.now - obs[|obs| - 1].now <= window
    ensures IsRun(obs + [last], run + [last], window)
  {
    var longer, wider := obs + [last], run + [last];
    assert run[|run| - 1] == obs[|obs| - 1];
    assert wider == longer[|longer| - |wider|..];
    forall i | 0 < i < |wider| ensures wider[i].now - wider[i - 1].now <= window {
      if i == |run| {
        assert wider[i - 1] == run[|run| - 1];
      }
    }
  }

  lemma RunStarts(obs: seq<Observation>, window: int)
    ensures |obs| <= 1 ==> IsRun(obs, obs, window)
    ensures |obs| > 1 && obs[|obs| - 1].now - obs[|obs| - 2].now > window ==> IsRun(obs, [obs[|obs| - 1]], window)
  {
    if |obs| > 0 {
      assert [obs[|obs| - 1]] == obs[|obs| - 1..];
    }
  }

  lemma CurrentRunUnfolds(init: seq<Observation>, last: Observation, window: int)
    requires init != []
    ensures CurrentRun(init + [last], window) ==
            if last.now - init[|init| - 1].now <= window then CurrentRun(init, window) + [last] else [last]
  {
    assert (init + [last])[..|init|] == init;
  }

  /** CurrentRun is that suffix: every gap inside is within the window, the gap before it is not. */
  lemma {:induction false} CurrentRunIsLongest(obs: seq<Observation>, window: int)
    ensures IsRun(obs, CurrentRun(obs, window), window)
  {
    RunStarts(obs, window);
    if |obs| > 1 {
      hide CurrentRun, IsRun;
      var init, last := obs[..|obs| - 1], obs[|obs| - 1];
      assert obs == init + [last];
      CurrentRunUnfolds(init, last, window);
      CurrentRunIsLongest(init, window);
      if last.now - init[|init| - 1].now <= window {
        RunExtends(init, CurrentRun(init, window), last, window);
      }
    }
  }

  /** The non-empty variants of a list of observations. */
  ghost function Variants(obs: seq<Observation>): set<string> {
    set o | o in obs && o.variant != "" :: o.variant
  }

  function Bonus(attempts: nat, mutation: bool): int {
    Min((if attempts >= 2 then Min(10, 2 * attempts) else 0) + (if mutation then 5 else 0), 15)
  }

  // ---- The tracker's step on its table ----

  type Table = map<string, Session>

  function Collect(table: Table, cutoff: int): Table {
    map k | k in table && table[k].lastSeen >= cutoff :: table[k]
  }

  function AddDistinct(list: seq<string>, value: string): seq<string> {
    if value != "" && value !in list then list + [value] else list
  }

  function AddAll(list: seq<string>, values: seq<string>): seq<string> {
    if values == [] then list else AddDistinct(AddAll(list, values[..|values| - 1]), values[|values| - 1])
  }

  function Renewed(s: Session, o: Observation): Session {
    var variants := AddDistinct(s.variants, o.variant);
    Session(s.firstSeen, o.now, s.attempts + 1, variants, AddAll(s.srcIps, o.srcIps), AddAll(s.dstIps, o.dstIps),
            AddAll(s.files, o.files), AddAll(s.attackTypes, o.attackTypes),
            s.attempts + 1 >= 2 && |variants| >= 2)
  }

  function Fresh(now: int): Session {
    Session(now, now, 0, [], [], [], [], [], false)
  }

  function Step(table: Table, window: int, o: Observation): Table {
    var kept := Collect(table, o.now - window);
    kept[o.key := Renewed(if o.key in kept then kept[o.key] else Fresh(o.now), o)]
  }

  /** The table after a history of observations. */
  function After(window: int, history: seq<Observation>): Table {
    if history == [] then map[] else Step(After(window, history[..|history| - 1]), window, history[|history| - 1])
  }

  // ---- The code ----

  class AttackLoopTracker {
    const window: int
    var state: Table

    constructor (windowSeconds: int)
      ensures state == map[] && window == if windowSeconds != 0 then windowSeconds else 3600
    {
      window := if windowSeconds != 0 then windowSeconds else 3600;
      state := map[];
    }

    method Gc(now: int)
      modifies this`state
      ensures state == Collect(old(state), now - window)
    {
      var cutoff := now - window;
      state := map k | k in state && state[k].lastSeen >= cutoff :: state[k];
    }

    method Extend(list: seq<string>, values: seq<string>) returns (out: seq<string>)
      ensures out == AddAll(list, values)
    {
      out := list;
      for i := 0 to |values|
        invariant out == AddAll(list, values[..i])
      {
        assert values[..i + 1][..i] == values[..i];
        if values[i] != "" && values[i] !in out {
          out := out + [values[i]];
        }
      }
      assert values[..|values|] == values;
    }

    /** observe: collect what has expired, then renew or open the session of this key. */
    method Observe(o: Observation) returns (info: LoopInfo)
      modifies this`state
      ensures state == Step(old(state), window, o)
      ensures var s := state[o.key];
              info == LoopInfo(s.attempts, |s.variants|, s.mutationDetected, Bonus(s.attempts, s.mutationDetected))
    {
      hide AddAll, Collect;
      Gc(o.now);
      var s := if o.key in state then state[o.key] else Fresh(o.now);
      s := s.(attempts := s.attempts + 1, lastSeen := o.now);
      var srcIps := Extend(s.srcIps, o.srcIps);
      var dstIps := Extend(s.dstIps, o.dstIps);
      var files := Extend(s.files, o.files);
      var attackTypes := Extend(s.attackTypes, o.attackTypes);
      s := s.(srcIps := srcIps, dstIps := dstIps, files := files, attackTypes := attackTypes);
      if o.variant != "" && o.variant !in s.variants {
        s := s.(variants := s.variants + [o.variant]);
      }
      var mutation := s.attempts >= 2 && |s.variants| >= 2;
      var bonus := 0;
      if s.attempts >= 2 {
        bonus := bonus + Min(10, 2 * s.attempts);
      }
      if mutation {
        bonus := bonus + 5;
      }
      s := s.(mutationDetected := mutation);
      state := state[o.key := s];
      info := LoopInfo(s.attempts, |s.variants|, mutation, Min(bonus, 15));
    }
  }

  // ---- The table refines the history ----

  /** The clock never runs backwards. */
  ghost predicate Clocked(history: seq<Observation>) {
    forall i, j :: 0 <= i < j < |history| ==> history[i].now <= history[j].now
  }

  /** What the table holds for a key: nothing if its last observation is out of the window, else its current run. */
  ghost predicate Refines(window: int, table: Table, history: seq<Observation>, key: string) {
    var obs := Of(history, key);
    if history == [] || obs == [] || obs[|obs| - 1].now < history[|history| - 1].now - window then key !in table
    else
      var run := CurrentRun(obs, window);
      && key in table
      && table[key].attempts == |run|
      && table[key].lastSeen == obs[|obs| - 1].now
      && table[key].firstSeen == run[0].now
      && Elems(table[key].variants) == Variants(run)
      && Distinct(table[key].variants)
      && |table[key].variants| <= |run|
      && table[key].mutationDetected == (|table[key].variants| >= 2)
  }

  lemma VariantsExtend(obs: seq<Observation>, o: Observation)
    ensures Variants(obs + [o]) == Variants(obs) + if o.variant != "" then {o.variant} else {}
  {
    assert o in obs + [o];
    assert forall x :: x in obs + [o] <==> x in obs || x == o;
  }

  lemma AddDistinctFacts(list: seq<string>, v: string)
    requires Distinct(list)
    ensures Distinct(AddDistinct(list, v))
    ensures Elems(AddDistinct(list, v)) == Elems(list) + if v != "" then {v} else {}
  {
    assert v in list <==> v in Elems(list);
    assert Elems(list + [v]) == Elems(list) + {v};
  }

  /** One renewed session covers one more observation. */
  lemma RenewedCovers(s: Session, run: seq<Observation>, o: Observation)
    requires s.attempts == |run| && Distinct(s.variants) && Elems(s.variants) == Variants(run) && |s.variants| <= |run|
    ensures var r := Renewed(s, o);
            && r.attempts == |run| + 1 && Distinct(r.variants) && Elems(r.variants) == Variants(run + [o])
            && |r.variants| <= |run| + 1 && r.mutationDetected == (|r.variants| >= 2)
  {
    AddDistinctFacts(s.variants, o.variant);
    VariantsExtend(run, o);
  }

  lemma OfExtends(history: seq<Observation>, o: Observation, key: string)
    ensures Of(history + [o], key) == Of(history, key) + if o.key == key then [o] else []
  {
    WhereExtends(history, o, Keyed(key));
  }

  lemma LastObservation(history: seq<Observation>, key: string)
    requires Clocked(history) && Of(history, key) != []
    ensures history != [] && Of(history, key)[|Of(history, key)| - 1].now <= history[|history| - 1].now
  {
    var obs := Of(history, key);
    WhereKeeps(history, Keyed(key), obs[|obs| - 1]);
    var i :| 0 <= i < |history| && history[i] == obs[|obs| - 1];
  }

  /** Observing another key only collects. */
  lemma StepOther(window: int, table: Table, history: seq<Observation>, o: Observation, key: string)
    requires Clocked(history + [o]) && o.key != key && Refines(window, table, history, key)
    ensures Refines(window, Step(table, window, o), history + [o], key)
  {
    hide CurrentRun, Variants, Distinct;
    OfExtends(history, o, key);
    var longer := history + [o];
    assert longer[|longer| - 1] == o;
    assert Of(longer, key) == Of(history, key);
    if history != [] {
      assert longer[|history| - 1] == history[|history| - 1];
      assert history[|history| - 1].now <= o.now;
    } else {
      assert Of(history, key) == [];
    }
  }

  lemma NewSession(o: Observation)
    ensures var r := Renewed(Fresh(o.now), o);
            && r.attempts == 1 && Distinct(r.variants) && Elems(r.variants) == Variants([o])
            && |r.variants| <= 1 && r.mutationDetected == (|r.variants| >= 2)
  {
    assert Variants([]) == {} && Elems<string>([]) == {};
    RenewedCovers(Fresh(o.now), [], o);
    assert [] + [o] == [o];
  }

  /** Observing the key itself renews its session or opens a new one. */
  lemma StepOwn(window: int, table: Table, history: seq<Observation>, o: Observation)
    requires window >= 0 && Clocked(history + [o]) && Refines(window, table, history, o.key)
    ensures Refines(window, Step(table, window, o), history + [o], o.key)
  {
    hide Variants, Distinct, AddAll, AddDistinct, Elems;
    var obs := Of(history, o.key);
    OfExtends(history, o, o.key);
    var longer := obs + [o];
    assert |longer| > 1 ==> longer[..|longer| - 1] == obs;
    var kept := Collect(table, o.now - window);
    if obs != [] && o.now - obs[|obs| - 1].now <= window {
      assert Clocked(history) by {
        assert forall i :: 0 <= i < |history| ==> (history + [o])[i] == history[i];
      }
      LastObservation(history, o.key);
      assert (history + [o])[|history| - 1] == history[|history| - 1];
      CurrentRunIsLongest(obs, window);
      RenewedCovers(table[o.key], CurrentRun(obs, window), o);
    } else {
      assert o.key !in kept;
      NewSession(o);
      assert CurrentRun(longer, window) == [o];
    }
  }

  /** Under a clock that never runs backwards, the session of a key counts exactly the longest suffix of its
      observations with gaps within the window, whatever other keys do in between; its variants are those of
      that suffix, and mutation is reported exactly when there are two of them. */
  lemma {:induction false} SessionsRefineHistory(window: int, history: seq<Observation>, key: string)
    requires window >= 0 && Clocked(history)
    ensures Refines(window, After(window, history), history, key)
  {
    if history != [] {
      var init, o := history[..|history| - 1], history[|history| - 1];
      SessionsRefineHistory(window, init, key);
      assert history == init + [o];
      if o.key == key {
        StepOwn(window, After(window, init), init, o);
      } else {
        StepOther(window, After(window, init), init, o, key);
      }
    }
  }

  /** The bonus is 0 for a first attempt, grows with the attempts, and never exceeds 15. */
  lemma BonusBounds(attempts: nat, more: nat, mutation: bool)
    requires attempts <= more && (mutation ==> attempts >= 2)
    ensures 0 <= Bonus(attempts, mutation) <= 15
    ensures Bonus(attempts, mutation) == 0 <==> attempts < 2
    ensures Bonus(attempts, mutation) <= Bonus(more, mutation)
  {
  }

  // ---- Under any clock ----

  /** The observations of a key that its session still counts: all of them go once any key is observed more than
      the window after the last of them. */
  function Survivors(window: int, history: seq<Observation>, key: string): seq<Observation> {
    if history == [] then []
    else
      var rest, o := Survivors(window, history[..|history| - 1], key), history[|history| - 1];
      var kept := if rest != [] && rest[|rest| - 1].now < o.now - window then [] else rest;
      if o.key == key then kept + [o] else kept
  }

  lemma NoVariants()
    ensures Variants([]) == {} && Elems<string>([]) == {} && Distinct<string>([])
  {
  }

  /** The table's session of a key counts these observations. */
  ghost predicate Holds(table: Table, key: string, s: seq<Observation>) {
    if s == [] then key !in table
    else key in table && table[key].attempts == |s| && table[key].lastSeen == s[|s| - 1].now && table[key].firstSeen == s[0].now
         && Elems(table[key].variants) == Variants(s) && Distinct(table[key].variants)
  }

  lemma StepHolds(window: int, table: Table, key: string, s: seq<Observation>, o: Observation)
    requires Holds(table, key, s)
    ensures var kept := if s != [] && s[|s| - 1].now < o.now - window then [] else s;
            Holds(Step(table, window, o), key, if o.key == key then kept + [o] else kept)
  {
    hide Variants, Elems, Distinct, AddAll, AddDistinct;
    if o.key == key {
      AddDistinctFacts([], o.variant);
      NoVariants();
      VariantsExtend([], o);
      VariantsExtend(s, o);
      assert [] + [o] == [o];
      if key in table {
        AddDistinctFacts(table[key].variants, o.variant);
      }
    }
  }

  /** Whatever the clock does, the table holds exactly the survivors of each key. */
  lemma {:induction false} TableHoldsSurvivors(window: int, history: seq<Observation>, key: string)
    ensures Holds(After(window, history), key, Survivors(window, history, key))
  {
    if history != [] {
      var init, o := history[..|history| - 1], history[|history| - 1];
      TableHoldsSurvivors(window, init, key);
      StepHolds(window, After(window, init), key, Survivors(window, init, key), o);
    }
  }

  /** b is the next observation of the key after a. */
  ghost predicate Consecutive(history: seq<Observation>, key: string, a: int, b: int) {
    && 0 <= a < b < |history| && history[a].key == history[b].key == key
    && forall t :: a < t < b ==> history[t].key != key
  }

  /** From position a on, the key's own gaps are within the window: a belongs to its current run. */
  ghost predicate RunsOn(window: int, history: seq<Observation>, key: string, a: int) {
    forall c, d :: a <= c && Consecutive(history, key, c, d) ==> history[d].now - history[c].now <= window
  }

  /** Between two consecutive members of the current run no other key is observed more than the window after
      the earlier one. */
  ghost predicate Smooth(window: int, history: seq<Observation>, key: string) {
    forall a, b, t :: Consecutive(history, key, a, b) && RunsOn(window, history, key, a) && a < t < b ==>
                        history[t].now - history[a].now <= window
  }

  lemma SurvivorsExtend(window: int, init: seq<Observation>, o: Observation)
    ensures var rest := Survivors(window, init, o.key);
            Survivors(window, init + [o], o.key) ==
            (if rest != [] && rest[|rest| - 1].now < o.now - window then [] else rest) + [o]
  {
    assert (init + [o])[..|init|] == init;
  }

  lemma SurvivorsKeep(window: int, init: seq<Observation>, o: Observation, key: string)
    requires o.key != key
    ensures var rest := Survivors(window, init, key);
            Survivors(window, init + [o], key) == if rest != [] && o.now - rest[|rest| - 1].now > window then [] else rest
  {
    assert (init + [o])[..|init|] == init;
  }

  lemma {:induction false} ForeignOnly(window: int, history: seq<Observation>, key: string, i: nat)
    requires i < |history| && history[i].key == key && forall t :: i < t < |history| ==> history[t].key != key
    ensures var s := Survivors(window, history, key);
            if exists t :: i < t < |history| && history[t].now - history[i].now > window then s == []
            else s == Survivors(window, history[..i + 1], key) != [] && s[|s| - 1] == history[i]
    decreases |history|
  {
    hide Survivors;
    var init, o := history[..|history| - 1], history[|history| - 1];
    assert history == init + [o];
    if i == |init| {
      assert history[..i + 1] == history;
      SurvivorsExtend(window, init, o);
    } else {
      ForeignOnly(window, init, key, i);
      SurvivorsKeep(window, init, o, key);
      assert init[..i + 1] == history[..i + 1];
      assert forall t :: i < t < |init| ==> history[t] == init[t];
    }
  }

  lemma {:induction false} ForeignKeepsOf(history: seq<Observation>, key: string, i: nat)
    requires i < |history| && forall t :: i < t < |history| ==> history[t].key != key
    ensures Of(history, key) == Of(history[..i + 1], key)
    decreases |history|
  {
    var init := history[..|history| - 1];
    if i == |init| {
      assert history[..i + 1] == history;
    } else {
      ForeignKeepsOf(init, key, i);
      assert init[..i + 1] == history[..i + 1];
    }
  }

  /** One step back along the key: the pairs of P + [o] are those up to its previous observation and the last one. */
  lemma SmoothUnfolds(window: int, history: seq<Observation>, key: string, i: nat)
    requires |history| > 0 && Consecutive(history, key, i, |history| - 1)
    ensures var last, before := |history| - 1, history[..i + 1];
            Smooth(window, history, key) <==>
            history[last].now - history[i].now > window
            || ((forall t :: i < t < last ==> history[t].now - history[i].now <= window) && Smooth(window, before, key))
  {
    var last, before := |history| - 1, history[..i + 1];
    var close := history[last].now - history[i].now <= window;
    forall a, b ensures Consecutive(history, key, a, b) <==> Consecutive(before, key, a, b) || (a == i && b == last) {
      if Consecutive(history, key, a, b) && b > i {
        assert a >= i && b == last;
      }
    }
    forall a | 0 <= a <= i ensures RunsOn(window, history, key, a) <==> close && RunsOn(window, before, key, a) {
      if close && RunsOn(window, before, key, a) {
        forall c, d | a <= c && Consecutive(history, key, c, d) ensures history[d].now - history[c].now <= window {
        }
      }
      if RunsOn(window, history, key, a) {
        assert Consecutive(history, key, i, last);
        forall c, d | a <= c && Consecutive(before, key, c, d) ensures before[d].now - before[c].now <= window {
          assert Consecutive(history, key, c, d);
        }
      }
    }
    if Smooth(window, history, key) && close {
      assert RunsOn(window, before, key, i);
      forall t | i < t < last ensures history[t].now - history[i].now <= window {
        assert Consecutive(history, key, i, last) && RunsOn(window, history, key, i);
      }
      forall a, b, t | Consecutive(before, key, a, b) && RunsOn(window, before, key, a) && a < t < b
        ensures before[t].now - before[a].now <= window
      {
        assert Consecutive(history, key, a, b) && RunsOn(window, history, key, a);
      }
    }
  }

  lemma {:induction false} PreviousOf(history: seq<Observation>, key: string)
    ensures Of(history, key) == [] <==> forall t :: 0 <= t < |history| ==> history[t].key != key
    ensures Of(history, key) != [] ==>
              exists i :: 0 <= i < |history| && history[i].key == key && forall t :: i < t < |history| ==> history[t].key != key
  {
    if history != [] {
      hide Of;
      var init, last := history[..|history| - 1], history[|history| - 1];
      PreviousOf(init, key);
      assert history == init + [last];
      OfExtends(init, last, key);
      if last.key == key {
        assert history[|init|].key == key;
      } else if Of(init, key) != [] {
        var i :| 0 <= i < |init| && init[i].key == key && forall t :: i < t < |init| ==> init[t].key != key;
        assert history[i].key == key && forall t :: i < t < |history| ==> history[t].key != key;
      }
    }
  }

  lemma LastOf(history: seq<Observation>, key: string)
    requires history != [] && history[|history| - 1].key == key
    ensures Of(history, key) != [] && Of(history, key)[|Of(history, key)| - 1] == history[|history| - 1]
  {
  }

  lemma {:induction false} NoSurvivors(window: int, history: seq<Observation>, key: string)
    requires forall t :: 0 <= t < |history| ==> history[t].key != key
    ensures Survivors(window, history, key) == []
  {
    if history != [] {
      NoSurvivors(window, history[..|history| - 1], key);
    }
  }

  /** The state of a key just before its next observation is that at its previous one, or nothing is left. */
  lemma SinceThen(window: int, history: seq<Observation>, key: string, i: nat)
    requires |history| > 0 && Consecutive(history, key, i, |history| - 1)
    ensures var init, before := history[..|history| - 1], history[..i + 1];
            var s := Survivors(window, init, key);
            && (if exists t :: i < t < |history| - 1 && history[t].now - history[i].now > window then s == []
                else s == Survivors(window, before, key) != [] && s[|s| - 1] == history[i])
            && Of(init, key) == Of(before, key) != [] && Of(before, key)[|Of(before, key)| - 1] == history[i]
  {
    var init := history[..|history| - 1];
    assert init[..i + 1] == history[..i + 1];
    assert forall t :: 0 <= t < |init| ==> init[t] == history[t];
    ForeignOnly(window, init, key, i);
    ForeignKeepsOf(init, key, i);
    LastOf(history[..i + 1], key);
  }

  lemma RunStep(window: int, history: seq<Observation>, key: string, i: nat)
    requires |history| > 0 && Consecutive(history, key, i, |history| - 1)
    ensures var last, before := history[|history| - 1], history[..i + 1];
            CurrentRun(Of(history, key), window) ==
            (if last.now - history[i].now <= window then CurrentRun(Of(before, key), window) else []) + [last]
  {
    hide Survivors, Of, CurrentRun;
    var init, o := history[..|history| - 1], history[|history| - 1];
    assert history == init + [o];
    SinceThen(window, history, key, i);
    OfExtends(init, o, key);
    CurrentRunUnfolds(Of(history[..i + 1], key), o, window);
    assert [] + [o] == [o];
  }

  /** One observation of the key after another, with only other keys in between. */
  lemma SurvivorsStep(window: int, history: seq<Observation>, key: string, i: nat)
    requires |history| > 0 && Consecutive(history, key, i, |history| - 1)
    ensures var last, before := history[|history| - 1], history[..i + 1];
            var close := last.now - history[i].now <= window;
            && Survivors(window, history, key) ==
               (if close && forall t :: i < t < |history| - 1 ==> history[t].now - history[i].now <= window
                then Survivors(window, before, key) else []) + [last]
            && CurrentRun(Of(history, key), window) == (if close then CurrentRun(Of(before, key), window) else []) + [last]
  {
    hide Survivors, Of, CurrentRun;
    RunStep(window, history, key, i);
    var init, o := history[..|history| - 1], history[|history| - 1];
    assert history == init + [o];
    SinceThen(window, history, key, i);
    SurvivorsExtend(window, init, o);
  }

  lemma FirstOf(window: int, history: seq<Observation>, key: string)
    requires history != [] && history[|history| - 1].key == key && Of(history[..|history| - 1], key) == []
    ensures var last := history[|history| - 1];
            Survivors(window, history, key) == [last] == CurrentRun(Of(history, key), window) && Smooth(window, history, key)
  {
    var init, o := history[..|history| - 1], history[|history| - 1];
    PreviousOf(init, key);
    NoSurvivors(window, init, key);
    OfExtends(init, o, key);
    assert history == init + [o] && [] + [o] == [o];
    assert forall t :: 0 <= t < |init| ==> init[t] == history[t];
  }

  lemma {:induction false} SurvivorsAreRun(window: int, history: seq<Observation>, key: string)
    requires history != [] && history[|history| - 1].key == key
    ensures var s, run := Survivors(window, history, key), CurrentRun(Of(history, key), window);
            s != [] && |s| <= |run| && (|s| == |run| <==> Smooth(window, history, key))
    decreases |history|
  {
    hide Survivors, Of, CurrentRun, Smooth;
    var init, o := history[..|history| - 1], history[|history| - 1];
    PreviousOf(init, key);
    if Of(init, key) == [] {
      FirstOf(window, history, key);
    } else {
      var i :| 0 <= i < |init| && init[i].key == key && forall t :: i < t < |init| ==> init[t].key != key;
      assert forall t :: 0 <= t < |init| ==> init[t] == history[t];
      assert Consecutive(history, key, i, |init|);
      SurvivorsStep(window, history, key, i);
      SurvivorsAreRun(window, history[..i + 1], key);
      SmoothUnfolds(window, history, key, i);
    }
  }

  /** Under any clock: a session just observed never counts more than the key's current run, and counts exactly
      that run if and only if no other key was observed, between two of its members, more than the window after
      the earlier one. */
  lemma ClockJumpsSplitExactly(window: int, history: seq<Observation>, key: string)
    requires history != [] && history[|history| - 1].key == key
    ensures var run := CurrentRun(Of(history, key), window);
            && key in After(window, history)
            && After(window, history)[key].attempts <= |run|
            && (After(window, history)[key].attempts == |run| <==> Smooth(window, history, key))
  {
    hide Survivors, Of, CurrentRun, Smooth, After, Variants;
    SurvivorsAreRun(window, history, key);
    TableHoldsSurvivors(window, history, key);
  }

  lemma StepFacts(table: Table, window: int, o: Observation, key: string)
    ensures var next := Step(table, window, o);
            if key == o.key then
              key in next && next[key].lastSeen == o.now && (key !in table ==> next[key].attempts == 1)
            else key in next <==> key in table && table[key].lastSeen >= o.now - window
  {
  }

  lemma AfterExtends(window: int, history: seq<Observation>, o: Observation)
    ensures After(window, history + [o]) == Step(After(window, history), window, o)
  {
    assert (history + [o])[..|history|] == history;
  }

  lemma TableDrops(window: int, a: Observation, ahead: Observation, b: Observation)
    requires a.key == b.key && ahead.key != a.key && ahead.now - window > a.now
    ensures a.key in After(window, [a, ahead, b]) && After(window, [a, ahead, b])[a.key].attempts == 1
  {
    hide After, Step;
    AfterExtends(window, [], a);
    AfterExtends(window, [a], ahead);
    AfterExtends(window, [a, ahead], b);
    assert [] + [a] == [a] && [a] + [ahead] == [a, ahead] && [a, ahead] + [b] == [a, ahead, b];
    StepFacts(After(window, []), window, a, a.key);
    StepFacts(After(window, [a]), window, ahead, a.key);
    StepFacts(After(window, [a, ahead]), window, b, a.key);
  }

  /** The clock matters: one reading ahead of time drops a session that its own next attempt would have continued. */
  lemma ClockJumpSplitsSession(window: int, a: Observation, ahead: Observation, b: Observation)
    requires window >= 0 && a.key == b.key && ahead.key != a.key
    requires 0 <= b.now - a.now <= window && ahead.now - window > a.now
    ensures |CurrentRun(Of([a, ahead, b], a.key), window)| == 2
    ensures a.key in After(window, [a, ahead, b]) && After(window, [a, ahead, b])[a.key].attempts == 1
  {
    var h := [a, ahead, b];
    TableDrops(window, a, ahead, b);
    OfExtends([], a, a.key);
    OfExtends([a], ahead, a.key);
    OfExtends([a, ahead], b, a.key);
    assert [] + [a] == [a] && [a] + [ahead] == [a, ahead] && [a, ahead] + [b] == h;
    hide After, Of;
    assert Of(h, a.key) == [a] + [b];
    CurrentRunUnfolds([a], b, window);
  }

  // ---- The definitions in literals ----

  /** The bonus: nothing for a first attempt, two points for each of up to five, and five more for a mutation. */
  lemma BonusInPoints(attempts: nat, mutation: bool)
    requires mutation ==> attempts >= 2
    ensures attempts < 2 ==> Bonus(attempts, mutation) == 0
    ensures 2 <= attempts <= 5 ==> Bonus(attempts, mutation) == 2 * attempts + if mutation then 5 else 0
    ensures attempts >= 5 ==> Bonus(attempts, mutation) == if mutation then 15 else 10
  {
  }
}
