/**
 One pass of the limit controller: sample the workers, then report those over a limit.
 */
module LimitController {
  import opened Basics
  import opened StateFilter

  const SECOND: int := 1_000_000_000

  const STATE_READY := 1
  const STATE_WORKING := 2
  const STATE_INVALID := 3

  datatype Event = MaxMemory | Ttl | IdleTtl | ExecTtl

  datatype Report = Report(event: Event, w: WorkerId)

  /** Limits are in seconds and megabytes; zero switches one off. */
  datatype Config = Config(maxMemory: nat, ttl: int, idleTtl: int, execTtl: int)

  /** What a pass reads of one worker: the state it looks at first, whether the process can be
      inspected, its age in nanoseconds, its memory in bytes, and the sample it pushes. */
  datatype Observation = Observation(w: WorkerId, state: int, readable: bool, age: int, memory: nat, sample: Sample)

  /** How the pool answered `Remove`, and which workers kept their execution count meanwhile. */
  datatype World = World(removed: set<Report>, steady: set<WorkerId>)

  predicate TooOld(cfg: Config, o: Observation) {
    cfg.ttl != 0 && o.age >= cfg.ttl * SECOND
  }

  predicate TooBig(cfg: Config, o: Observation) {
    cfg.maxMemory != 0 && o.memory >= cfg.maxMemory * 1024 * 1024
  }

  /** The worker is looked at in this pass. */
  predicate Assessed(o: Observation) {
    o.state != STATE_INVALID && o.readable
  }

  predicate Pushed(cfg: Config, o: Observation) {
    Assessed(o) && !TooOld(cfg, o) && !TooBig(cfg, o)
  }

  /** The reports loadWorkers makes about one worker. */
  function Judge(cfg: Config, o: Observation, world: World): seq<Report> {
    if !Assessed(o) then []
    else if TooOld(cfg, o) then Allowed(Report(Ttl, o.w), world)
    else if TooBig(cfg, o) then Allowed(Report(MaxMemory, o.w), world)
    else []
  }

  function Allowed(report: Report, world: World): seq<Report> {
    if report in world.removed then [report] else []
  }

  function JudgeAll(cfg: Config, obs: seq<Observation>, world: World): seq<Report> {
    if obs == [] then []
    else JudgeAll(cfg, obs[..|obs| - 1], world) + Judge(cfg, obs[|obs| - 1], world)
  }

  predicate OncePerWorker(obs: seq<Observation>) {
    forall i, j :: 0 <= i < j < |obs| ==> obs[i].w != obs[j].w
  }

  predicate ReportedOnce(reports: seq<Report>) {
    forall i, j :: 0 <= i < j < |reports| ==> reports[i].w != reports[j].w
  }

  /** What one pass pushes. */
  ghost function Samples(cfg: Config, obs: seq<Observation>): map<WorkerId, Sample>
    requires OncePerWorker(obs)
  {
    if obs == [] then map[]
    else
      var last := obs[|obs| - 1];
      var rest := Samples(cfg, obs[..|obs| - 1]);
      if Pushed(cfg, last) then rest[last.w := last.sample] else rest
  }

  /** Exactly the workers that are not invalid, can be inspected and are below both limits are sampled. */
  lemma {:induction false} SampledWhenPushed(cfg: Config, obs: seq<Observation>, i: nat)
    requires OncePerWorker(obs) && i < |obs|
    ensures obs[i].w in Samples(cfg, obs) <==>
              && obs[i].state != 3 && obs[i].readable
              && (cfg.ttl == 0 || obs[i].age < cfg.ttl * 1_000_000_000)
              && (cfg.maxMemory == 0 || obs[i].memory < cfg.maxMemory * 1_048_576)
    ensures obs[i].w in Samples(cfg, obs) ==> Samples(cfg, obs)[obs[i].w] == obs[i].sample
  {
    var n := |obs| - 1;
    if i < n {
      SampledWhenPushed(cfg, obs[..n], i);
    } else {
      UnseenNotSampled(cfg, obs[..n], obs[n].w);
    }
  }

  lemma {:induction false} UnseenNotSampled(cfg: Config, obs: seq<Observation>, w: WorkerId)
    requires OncePerWorker(obs) && forall i :: 0 <= i < |obs| ==> obs[i].w != w
    ensures w !in Samples(cfg, obs)
  {
    if obs != [] {
      UnseenNotSampled(cfg, obs[..|obs| - 1], w);
    }
  }

  /** Reports of the first loop name observed workers that are not pushed, each once. */
  lemma {:induction false} JudgedOnce(cfg: Config, obs: seq<Observation>, world: World)
    requires OncePerWorker(obs)
    ensures ReportedOnce(JudgeAll(cfg, obs, world))
    ensures forall r :: r in JudgeAll(cfg, obs, world) ==> r.w !in Samples(cfg, obs) && r.event in {Ttl, MaxMemory}
    ensures forall r :: r in JudgeAll(cfg, obs, world) ==> exists i :: 0 <= i < |obs| && obs[i].w == r.w
  {
    if obs != [] {
      var n := |obs| - 1;
      JudgedOnce(cfg, obs[..n], world);
      UnseenNotSampled(cfg, obs[..n], obs[n].w);
      var before, now := JudgeAll(cfg, obs[..n], world), Judge(cfg, obs[n], world);
      forall r | r in before
        ensures r.w != obs[n].w
      {
        var i :| 0 <= i < n && obs[..n][i].w == r.w;
      }
      assert forall r :: r in now ==> r.w == obs[n].w;
    }
  }

  /** Age is reported as such, and memory as such if the age is within its limit. */
  predicate ReportedRight(cfg: Config, o: Observation, world: World, reports: seq<Report>) {
    && (Report(Ttl, o.w) in reports <==>
          && o.state != 3 && o.readable && cfg.ttl != 0 && o.age >= cfg.ttl * 1_000_000_000
          && Report(Ttl, o.w) in world.removed)
    && (Report(MaxMemory, o.w) in reports <==>
          && o.state != 3 && o.readable && (cfg.ttl == 0 || o.age < cfg.ttl * 1_000_000_000)
          && cfg.maxMemory != 0 && o.memory >= cfg.maxMemory * 1_048_576
          && Report(MaxMemory, o.w) in world.removed)
  }

  lemma {:induction false} JudgedRight(cfg: Config, obs: seq<Observation>, world: World, i: nat)
    requires OncePerWorker(obs) && i < |obs|
    ensures ReportedRight(cfg, obs[i], world, JudgeAll(cfg, obs, world))
  {
    var n := |obs| - 1;
    var before, now := JudgeAll(cfg, obs[..n], world), Judge(cfg, obs[n], world);
    assert forall r :: r in now ==> r.w == obs[n].w;
    if i < n {
      JudgedRight(cfg, obs[..n], world, i);
    } else {
      JudgedOnce(cfg, obs[..n], world);
      forall r | r in before
        ensures r.w != obs[n].w
      {
        var k :| 0 <= k < n && obs[..n][k].w == r.w;
      }
    }
  }

  lemma AllReportedRight(cfg: Config, obs: seq<Observation>, world: World, reports: seq<Report>)
    requires OncePerWorker(obs)
    requires forall r :: r in reports && r.event in {Ttl, MaxMemory} <==> r in JudgeAll(cfg, obs, world)
    ensures forall i :: 0 <= i < |obs| ==> ReportedRight(cfg, obs[i], world, reports)
  {
    forall i | 0 <= i < |obs|
      ensures ReportedRight(cfg, obs[i], world, reports)
    {
      JudgedRight(cfg, obs, world, i);
      var ttl, memory := Report(Ttl, obs[i].w), Report(MaxMemory, obs[i].w);
      assert ttl in reports <==> ttl in JudgeAll(cfg, obs, world);
      assert memory in reports <==> memory in JudgeAll(cfg, obs, world);
    }
  }

  /** Reports about different workers can be put together. */
  lemma TogetherOnce(a: seq<Report>, b: seq<Report>)
    requires ReportedOnce(a) && ReportedOnce(b)
    requires forall q, r :: q in a && r in b ==> q.w != r.w
    ensures ReportedOnce(a + b)
  {
  }

  /** The reports of a pass: those of the first loop are about other workers than those of the other two,
      which are about workers in different states. */
  lemma ThreeTogether(judged: seq<Report>, stuck: seq<Report>, idle: seq<Report>)
    requires ReportedOnce(judged) && ReportedOnce(stuck) && ReportedOnce(idle)
    requires forall q, r :: q in judged && r in stuck ==> q.w != r.w
    requires forall q, r :: q in judged && r in idle ==> q.w != r.w
    requires forall q, r :: q in stuck && r in idle ==> q.w != r.w
    requires forall r :: r in judged ==> r.event in {Ttl, MaxMemory}
    requires forall r :: r in stuck ==> r.event == ExecTtl
    requires forall r :: r in idle ==> r.event == IdleTtl
    ensures ReportedOnce(judged + stuck + idle)
    ensures forall w :: Report(ExecTtl, w) in judged + stuck + idle <==> Report(ExecTtl, w) in stuck
    ensures forall w :: Report(IdleTtl, w) in judged + stuck + idle <==> Report(IdleTtl, w) in idle
    ensures forall r :: r in judged + stuck + idle && r.event in {Ttl, MaxMemory} <==> r in judged
  {
    TogetherOnce(judged, stuck);
    TogetherOnce(judged + stuck, idle);
    assert forall r :: r in judged + stuck + idle <==> r in judged || r in stuck || r in idle;
  }

  /** Workers that the history selects are sampled, in that state. */
  lemma SelectedAreSampled(rounds: seq<Round>, reports: seq<Report>, state: int, before: int)
    requires rounds != [] && forall r :: r in reports ==> Selects(rounds, r.w, state, before)
    ensures var samples := rounds[|rounds| - 1].pushed;
            forall r :: r in reports ==> r.w in samples && samples[r.w].state == state
  {
  }

  class Controller {
    const cfg: Config
    const sw: Filter

    constructor (cfg: Config)
      ensures this.cfg == cfg && fresh(sw) && sw.Valid() && sw.rounds == [] && sw.next == map[]
    {
      this.cfg := cfg;
      this.sw := new Filter();
    }

    /** Samples every worker of the pool, reporting the ones over their age or memory limit. */
    method LoadWorkers(obs: seq<Observation>, world: World, now: int) returns (reports: seq<Report>)
      requires sw.Valid() && sw.next == map[] && OncePerWorker(obs)
      modifies sw
      ensures sw.Valid() && sw.next == map[]
      ensures sw.rounds == old(sw.rounds) + [Round(Samples(cfg, obs), now)]
      ensures reports == JudgeAll(cfg, obs, world)
    {
      reports := [];
      for i := 0 to |obs|
        invariant sw.Valid() && sw.rounds == old(sw.rounds)
        invariant sw.next == Samples(cfg, obs[..i])
        invariant reports == JudgeAll(cfg, obs[..i], world)
      {
        var o := obs[i];
        assert obs[..i + 1][..i] == obs[..i];
        if !Assessed(o) {
        } else if TooOld(cfg, o) {
          if Report(Ttl, o.w) in world.removed {
            reports := reports + [Report(Ttl, o.w)];
          }
        } else if TooBig(cfg, o) {
          if Report(MaxMemory, o.w) in world.removed {
            reports := reports + [Report(MaxMemory, o.w)];
          }
        } else {
          sw.Push(o.w, o.sample);
        }
      }
      assert obs[..|obs|] == obs;
      sw.Sync(now);
    }

    /** The body of both loops of control: report the workers whose removal the pool accepted and
        that pass the event's own test. */
    method Sift(event: Event, found: seq<WorkerId>, passing: set<WorkerId>, world: World)
      returns (reports: seq<Report>)
      requires Distinct(found)
      ensures ReportedOnce(reports)
      ensures forall r :: r in reports <==> r.event == event && r.w in found && r.w in passing && r in world.removed
    {
      reports := [];
      for i := 0 to |found|
        invariant ReportedOnce(reports)
        invariant forall r :: r in reports <==>
                    r.event == event && r.w in found[..i] && r.w in passing && r in world.removed
      {
        if Report(event, found[i]) in world.removed && found[i] in passing {
          reports := reports + [Report(event, found[i])];
        }
      }
      assert found[..|found|] == found;
    }

    /** One pass.  No worker is reported twice.  A worker is reported for its time in a state exactly
        when the history of passes, this one included, shows it in that state with the same execution
        count since before the limit, and the pool accepted its removal. */
    method Control(obs: seq<Observation>, world: World, loaded: int, now: int) returns (reports: seq<Report>)
      requires sw.Valid() && sw.next == map[] && OncePerWorker(obs)
      modifies sw
      ensures sw.Valid() && sw.next == map[]
      ensures sw.rounds == old(sw.rounds) + [Round(Samples(cfg, obs), loaded)]
      ensures ReportedOnce(reports)
      ensures forall w :: Report(ExecTtl, w) in reports <==>
                && cfg.execTtl != 0 && Selects(sw.rounds, w, 2, now - cfg.execTtl * 1_000_000_000)
                && Report(ExecTtl, w) in world.removed && w in world.steady
      ensures forall w :: Report(IdleTtl, w) in reports <==>
                && cfg.idleTtl != 0 && Selects(sw.rounds, w, 1, now - cfg.idleTtl * 1_000_000_000)
                && Report(IdleTtl, w) in world.removed
      ensures forall r :: r in reports && r.event in {Ttl, MaxMemory} <==> r in JudgeAll(cfg, obs, world)
      ensures forall i :: 0 <= i < |obs| ==> ReportedRight(cfg, obs[i], world, reports)
    {
      var judged := LoadWorkers(obs, world, loaded);
      JudgedOnce(cfg, obs, world);
      var stuck: seq<Report>, idle: seq<Report> := [], [];
      if cfg.execTtl != 0 {
        var found := sw.Find(STATE_WORKING, now - cfg.execTtl * SECOND);
        stuck := Sift(ExecTtl, found, world.steady, world);
      }
      if cfg.idleTtl != 0 {
        var found := sw.Find(STATE_READY, now - cfg.idleTtl * SECOND);
        idle := Sift(IdleTtl, found, (set w | w in found), world);
      }
      reports := judged + stuck + idle;
      SelectedAreSampled(sw.rounds, stuck, STATE_WORKING, now - cfg.execTtl * SECOND);
      SelectedAreSampled(sw.rounds, idle, STATE_READY, now - cfg.idleTtl * SECOND);
      ThreeTogether(judged, stuck, idle);
      AllReportedRight(cfg, obs, world, reports);
    }
  }
}
