/** Who owns the compatibility level of a registry subject.

    The operator records, in an annotation of the KafkaSchema, the level it applied. When the field is
    cleared it reverts the override to the registry's global default, but only if the override is
    still the one it recorded. Reads may be old, and each effect may fail or only seem to. */
module CompatibilityOverride {
  import opened Base

  /** The empty level stands for a cleared field. */
  type Level = string

  const CLEARED: Level := ""

  /** What the registry holds: the subject's override, if it has one, and the global default. */
  datatype Config = Config(override: Option<Level>, global: Level)

  /** What happens to the calls of one pass. */
  datatype Calls = Calls(getFails: bool, globalFails: bool, put: Fate)

  /** The registry, the annotation, and whether the step succeeded. */
  datatype Applied = Applied(config: Config, recorded: Option<Level>, ok: bool)

  function Put(config: Config, level: Level, fate: Fate): Config {
    if fate.Applied() then config.(override := Some(level)) else config
  }

  /** One run of applyCompatibilityLevel. */
  function Apply(level: Level, recorded: Option<Level>, config: Config, calls: Calls): Applied {
    if level != CLEARED then
      var ok := calls.put.Acknowledged?;
      Applied(Put(config, level, calls.put), if ok then Some(level) else recorded, ok)
    else if recorded.None? then Applied(config, None, true)
    else if calls.getFails then Applied(config, recorded, false)
    else if config.override != recorded then Applied(config, None, true)
    else if calls.globalFails then Applied(config, recorded, false)
    else if config.override == Some(config.global) then Applied(config, None, true)
    else
      var ok := calls.put.Acknowledged?;
      Applied(Put(config, config.global, calls.put), if ok then None else recorded, ok)
  }

  /** The override is written for a set field, and for a cleared one if it is the recorded level and not the default
      already. The record follows what was done: the level, or nothing; and it stays while a call fails, so that the
      next pass tries again. */
  lemma ApplyExactly(level: Level, recorded: Option<Level>, config: Config, calls: Calls)
    ensures var r := Apply(level, recorded, config, calls);
            var own := recorded.Some? && config.override == recorded;
            var writes := level != "" ||
                          (own && !calls.getFails && !calls.globalFails && config.override != Some(config.global));
            && r.ok == (if level != "" then calls.put.Acknowledged?
                        else || recorded.None?
                             || (!calls.getFails && !own)
                             || (!calls.getFails && !calls.globalFails && (writes ==> calls.put.Acknowledged?)))
            && r.recorded == (if !r.ok then recorded else if level != "" then Some(level) else None)
            && r.config == if writes && !calls.put.Rejected?
                           then config.(override := Some(if level != "" then level else config.global)) else config
  {
  }

  // ---------------------------------------------------------------- runs

  /** recorded holds every stored value of the annotation, the current one last; writes is history. */
  datatype World = World(config: Config, recorded: seq<Option<Level>>, writes: seq<Level>)

  datatype Action =
    | Pass(level: Level, seen: nat, calls: Calls, persist: Fate)
    | Outside(config: Config)

  function Recorded(w: World): Option<Level>
    requires w.recorded != []
  {
    w.recorded[|w.recorded| - 1]
  }

  /** The annotation reaches the store only if the pass read the current object. */
  function Next(w: World, a: Action): Option<World>
    requires w.recorded != []
    ensures Next(w, a).Some? ==> Next(w, a).value.recorded != []
  {
    match a
    case Outside(config) => Some(w.(config := config))
    case Pass(level, seen, calls, persist) =>
      if seen >= |w.recorded| then None
      else
        var applied := Apply(level, w.recorded[seen], w.config, calls);
        Some(World(
          applied.config,
          if seen == |w.recorded| - 1 && persist.Applied() then w.recorded + [applied.recorded] else w.recorded,
          if applied.config != w.config then w.writes + [applied.config.override.value] else w.writes))
  }

  function Run(w: World, actions: seq<Action>): Option<World>
    requires w.recorded != []
    ensures Run(w, actions).Some? ==> Run(w, actions).value.recorded != []
    decreases |actions|
  {
    if actions == [] then Some(w)
    else
      match Next(w, actions[0])
      case None => None
      case Some(next) => Run(next, actions[1..])
  }

  /** A pass of a schema whose field is cleared. */
  predicate IsCleared(a: Action) {
    a.Pass? && a.level == CLEARED
  }

  // ---------------------------------------------------------------- ownership

  /** With the field cleared the override changes only if it equals the recorded level, and then it
      becomes the global default. */
  lemma WritesOnlyItsOwn(w: World, a: Action, next: World)
    requires w.recorded != [] && IsCleared(a) && Next(w, a) == Some(next)
    ensures next.config.global == w.config.global
    ensures next.config != w.config ==>
              && w.config.override.Some? && w.recorded[a.seen] == w.config.override
              && next.config.override == Some(w.config.global) != w.config.override
              && next.writes == w.writes + [w.config.global]
    ensures next.config == w.config ==> next.writes == w.writes
  {
  }

  /** With the field set, a pass whose write is acknowledged leaves the level in the registry and on record; one whose
      write fails records nothing. */
  lemma SetLevelIsRecorded(w: World, a: Action, next: World)
    requires w.recorded != [] && a.Pass? && a.level != "" && Next(w, a) == Some(next)
    requires a.seen == |w.recorded| - 1 && a.persist.Applied()
    ensures a.calls.put.Applied() ==> next.config == w.config.(override := Some(a.level))
    ensures !a.calls.put.Applied() ==> next.config == w.config
    ensures Recorded(next) == if a.calls.put.Acknowledged? then Some(a.level) else Recorded(w)
  {
  }

  /** What the registry ends up with once the field is cleared. */
  function Settled(w: World): Config
    requires w.recorded != []
  {
    if Recorded(w).Some? && w.config.override == Recorded(w)
    then w.config.(override := Some(w.config.global))
    else w.config
  }

  /** Any number of passes, with old reads and failures of every kind: at most one write. */
  lemma {:induction false} AtMostOneWrite(w: World, actions: seq<Action>, end: World)
    requires w.recorded != [] && Run(w, actions) == Some(end) && forall a | a in actions :: IsCleared(a)
    ensures end.config == w.config || end.config == w.config.(override := Some(w.config.global))
    ensures end.writes == if end.config == w.config then w.writes else w.writes + [w.config.global]
    decreases |actions|
  {
    if actions != [] {
      var next := Next(w, actions[0]).value;
      assert actions[0] in actions;
      WritesOnlyItsOwn(w, actions[0], next);
      AtMostOneWrite(next, actions[1..], end);
    }
  }

  /** The pass read the current object. */
  predicate ReadsCurrent(w: World, a: Action) {
    a.Pass? && a.seen == |w.recorded| - 1
  }

  predicate AllReadCurrent(w: World, actions: seq<Action>)
    requires w.recorded != []
    decreases |actions|
  {
    actions == [] ||
    (IsCleared(actions[0]) && ReadsCurrent(w, actions[0]) &&
     (Next(w, actions[0]).Some? ==> AllReadCurrent(Next(w, actions[0]).value, actions[1..])))
  }

  /** The pass goes through: no call fails and the annotation is stored. */
  predicate GoesThrough(a: Action) {
    a.Pass? && !a.calls.getFails && !a.calls.globalFails && a.calls.put.Acknowledged? && a.persist.Applied()
  }

  /** On the way to the settled state: either nothing has happened yet, or the write is out and what is
      recorded no longer matters, or the record is gone. */
  ghost predicate OnTheWay(start: World, w: World)
    requires start.recorded != []
  {
    && w.recorded != [] && w.config.global == start.config.global
    && (Recorded(w) == Recorded(start) || Recorded(w) == None)
    && (w.config == start.config || w.config == Settled(start))
    && (Recorded(w) == None ==> w.config == Settled(start))
  }

  lemma NextOnTheWay(start: World, w: World, a: Action, next: World)
    requires start.recorded != [] && OnTheWay(start, w) && IsCleared(a) && ReadsCurrent(w, a) &&
             Next(w, a) == Some(next)
    ensures OnTheWay(start, next)
    ensures GoesThrough(a) || Recorded(w) == None ==> Recorded(next) == None
  {
  }

  lemma {:induction false} RunOnTheWay(start: World, w: World, actions: seq<Action>, end: World)
    requires start.recorded != [] && OnTheWay(start, w) && AllReadCurrent(w, actions) && Run(w, actions) == Some(end)
    ensures OnTheWay(start, end)
    ensures Recorded(w) == None || (exists a :: a in actions && GoesThrough(a)) ==> Recorded(end) == None
    decreases |actions|
  {
    if actions != [] {
      var next := Next(w, actions[0]).value;
      NextOnTheWay(start, w, actions[0], next);
      RunOnTheWay(start, next, actions[1..], end);
      forall a | a in actions && GoesThrough(a)
        ensures Recorded(end) == None
      {
        if a == actions[0] { assert Recorded(next) == None; } else { assert a in actions[1..]; }
      }
    }
  }

  /** However often the pass is replayed, and whatever failed before, once it has gone through the registry
      is in the same state, and nothing is recorded any more. */
  lemma ReplaysSettle(start: World, actions: seq<Action>, end: World)
    requires start.recorded != [] && AllReadCurrent(start, actions) && Run(start, actions) == Some(end)
    requires exists a :: a in actions && GoesThrough(a)
    ensures end.config == Settled(start) && Recorded(end) == None
    // The override that is still the recorded one has become the global default; any other one is as it was.
    ensures end.config.global == start.config.global
    ensures end.config.override == if Recorded(start).Some? && start.config.override == Recorded(start)
                                   then Some(start.config.global) else start.config.override
  {
    RunOnTheWay(start, start, actions, end);
  }

  /** An override that nobody recorded, or that was changed since, survives every run without outside writes
      as long as no pass reads a record that matches it. */
  lemma {:induction false} ForeignOverrideStays(w: World, actions: seq<Action>, end: World)
    requires w.recorded != [] && Run(w, actions) == Some(end) && forall a | a in actions :: IsCleared(a)
    requires w.config.override.None? || w.config.override !in w.recorded
    ensures end.config == w.config
    decreases |actions|
  {
    if actions != [] {
      var next := Next(w, actions[0]).value;
      assert actions[0] in actions;
      assert w.recorded[actions[0].seen] in w.recorded;
      ForeignOverrideStays(next, actions[1..], end);
    }
  }
}
