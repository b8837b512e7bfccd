/** One simulation run: synthetic attacks pass through Firewall, IDS and IPS,
    every decision drawn from one shared generator in a fixed order. */
module Model {
  import opened Random
  import opened Stats

  /** `math.log(0.0)` raises: the only way a run can fail. */
  datatype SimError = MathDomainError

  datatype Result<T> = Ok(value: T) | Err(error: SimError)

  /** The run configuration: named floating-point parameters. */
  type Config = map<string, real>

  /** The keys the configuration loader insists on before any run starts. */
  const RequiredKeys: set<string> :=
    {"lambda_attacks", "ids_mu", "ids_sigma", "ips_mu", "ips_sigma",
     "ips_block_rate", "correct_detection"}

  predicate IsComplete(config: Config)
  {
    RequiredKeys <= config.Keys
  }

  datatype Params = Params(
    lambdaAttacks: real,
    idsMu: real, idsSigma: real,
    ipsMu: real, ipsSigma: real, ipsBlockRate: real,
    correctDetection: real)

  function ParamsOf(config: Config): Params
    requires IsComplete(config)
  {
    Params(config["lambda_attacks"],
           config["ids_mu"], config["ids_sigma"],
           config["ips_mu"], config["ips_sigma"], config["ips_block_rate"],
           config["correct_detection"])
  }

  /** `Gaussian(u1, u2, mu, sigma)` is the normal sample mu + z0 * sigma that the
      Box–Muller transform makes of two uniforms u1 > 0 and u2, z0 being
      sqrt(-2 ln u1) * cos(2 pi u2); its floating-point arithmetic is not modelled. */
  type Gaussian = (real, real, real, real) -> real

  datatype AttackType = DDoS | Phishing

  /** `complexity` is drawn but never used by any stage. */
  datatype Attack = Attack(kind: AttackType, complexity: real)

  // ---------------------------------------------------------------------
  // What each stage decides, read off the generator's stream. `at` is the
  // number of values the generator has already returned when the stage starts.
  // ---------------------------------------------------------------------

  const GenerateDraws: nat := 3
  const IdsDraws: nat := 2
  const IpsDraws: nat := 3

  /** The firewall draws only for a DDoS attack (short-circuit `and`). */
  function FirewallDraws(kind: AttackType): nat
  {
    if kind == DDoS then 1 else 0
  }

  /** First draw unused, second picks the type, third is the complexity. */
  function GenerateSpec(seed: int, at: nat): Attack
  {
    Attack(if DrawAt(seed, at + 1) < 0.5 then DDoS else Phishing, DrawAt(seed, at + 2))
  }

  function FirewallSpec(kind: AttackType, seed: int, at: nat): bool
  {
    kind == DDoS && DrawAt(seed, at) < 0.8
  }

  /** IDS latency, not floored; log(u1) fails when u1 is 0. */
  function IdsSpec(mu: real, sigma: real, gaussian: Gaussian, seed: int, at: nat): Result<real>
  {
    var u1, u2 := DrawAt(seed, at), DrawAt(seed, at + 1);
    if u1 == 0.0 then Err(MathDomainError) else Ok(gaussian(u1, u2, mu, sigma))
  }

  datatype IpsDecision = IpsDecision(time: real, blocked: bool)

  /** IPS latency floored at 0 by `max(t, 0)`, then the blocking draw. */
  function IpsSpec(mu: real, sigma: real, blockRate: real, gaussian: Gaussian,
                   seed: int, at: nat): (r: Result<IpsDecision>)
    ensures r.Ok? ==> 0.0 <= r.value.time
    ensures r.Ok? ==> (r.value.blocked <==> DrawAt(seed, at + 2) < blockRate)
    ensures r.Err? <==> DrawAt(seed, at) == 0.0
  {
    var u1, u2 := DrawAt(seed, at), DrawAt(seed, at + 1);
    if u1 == 0.0 then Err(MathDomainError)
    else
      var t := gaussian(u1, u2, mu, sigma);
      Ok(IpsDecision(if 0.0 > t then 0.0 else t, DrawAt(seed, at + 2) < blockRate))
  }

  datatype Outcome = FirewallBlocked | Detected | IpsBlocked | Successful(latency: real)

  datatype Event = Event(kind: AttackType, outcome: Outcome, draws: nat)

  /** The number of draws one event takes, by attack type and outcome. */
  function TableDraws(kind: AttackType, outcome: Outcome): nat
  {
    match outcome
    case FirewallBlocked => 4
    case Detected => if kind == DDoS then 7 else 6
    case IpsBlocked => if kind == DDoS then 10 else 9
    case Successful(_) => if kind == DDoS then 10 else 9
  }

  /** One pass of the loop body of `simulate`, starting at stream position `at`:
      Generated, then FirewallBlocked or on to the IDS. */
  function EventSpec(p: Params, gaussian: Gaussian, seed: int, at: nat): (r: Result<Event>)
    ensures r.Ok? ==> r.value.draws == TableDraws(r.value.kind, r.value.outcome)
    ensures r.Ok? ==> 4 <= r.value.draws <= 10
    ensures r.Ok? && r.value.outcome.FirewallBlocked? ==> r.value.kind == DDoS
    ensures r.Ok? ==> (r.value.kind == DDoS <==> DrawAt(seed, at + 1) < 0.5)
  {
    var attack := GenerateSpec(seed, at);
    var fwAt := at + GenerateDraws;
    if FirewallSpec(attack.kind, seed, fwAt) then
      Ok(Event(attack.kind, FirewallBlocked, GenerateDraws + 1))
    else
      PastFirewall(p, gaussian, seed, at, attack.kind, fwAt + FirewallDraws(attack.kind))
  }

  /** An event that passed the firewall: the IDS latency, then Detected or on
      to the IPS. `at` is where the event started, `idsAt` where the IDS starts. */
  function PastFirewall(p: Params, gaussian: Gaussian, seed: int, at: nat, kind: AttackType,
                        idsAt: nat): Result<Event>
    requires at <= idsAt
  {
    match IdsSpec(p.idsMu, p.idsSigma, gaussian, seed, idsAt)
    case Err(e) => Err(e)
    case Ok(idsTime) =>
      var detectAt := idsAt + IdsDraws;
      if DrawAt(seed, detectAt) < p.correctDetection then
        Ok(Event(kind, Detected, detectAt + 1 - at))
      else
        PastIds(p, gaussian, seed, at, kind, idsTime, detectAt + 1)
  }

  /** An event that the IDS missed: IpsBlocked, or Successful with the IDS and
      IPS latencies added up. */
  function PastIds(p: Params, gaussian: Gaussian, seed: int, at: nat, kind: AttackType,
                   idsTime: real, ipsAt: nat): Result<Event>
    requires at <= ipsAt
  {
    match IpsSpec(p.ipsMu, p.ipsSigma, p.ipsBlockRate, gaussian, seed, ipsAt)
    case Err(e) => Err(e)
    case Ok(d) =>
      if d.blocked then Ok(Event(kind, IpsBlocked, ipsAt + IpsDraws - at))
      else Ok(Event(kind, Successful(idsTime + d.time), ipsAt + IpsDraws - at))
  }

  // ---------------------------------------------------------------------
  // A whole run, as a fold over events.
  // ---------------------------------------------------------------------

  /** The four counters and the latency list `simulate` keeps. */
  datatype Tally = Tally(blocked: nat, detected: nat, ipsBlocked: nat, successful: nat,
                         latencies: seq<real>)
  {
    function Total(): nat { blocked + detected + ipsBlocked + successful }
  }

  /** Count one event's outcome; a successful one also records its latency. */
  function Record(t: Tally, o: Outcome): (r: Tally)
    ensures r.Total() == t.Total() + 1
    ensures r.blocked == t.blocked + (if o.FirewallBlocked? then 1 else 0)
    ensures r.detected == t.detected + (if o.Detected? then 1 else 0)
    ensures r.ipsBlocked == t.ipsBlocked + (if o.IpsBlocked? then 1 else 0)
    ensures r.successful == t.successful + (if o.Successful? then 1 else 0)
    ensures r.latencies == if o.Successful? then t.latencies + [o.latency] else t.latencies
  {
    match o
    case FirewallBlocked => t.(blocked := t.blocked + 1)
    case Detected => t.(detected := t.detected + 1)
    case IpsBlocked => t.(ipsBlocked := t.ipsBlocked + 1)
    case Successful(l) => t.(successful := t.successful + 1, latencies := t.latencies + [l])
  }

  /** The tally so far and the number of generator values used so far. */
  datatype Progress = Progress(tally: Tally, used: nat)

  /** The run one event further on: the event's outcome is recorded and its
      draws are used up, or its error ends the run. */
  function Advance(pr: Progress, ev: Result<Event>): Result<Progress>
  {
    match ev
    case Err(e) => Err(e)
    case Ok(x) => Ok(Progress(Record(pr.tally, x.outcome), pr.used + x.draws))
  }

  /** The first `n` events of a run whose generator is seeded with `seed`. */
  function Run(p: Params, gaussian: Gaussian, seed: int, n: nat): (r: Result<Progress>)
    ensures r.Ok? ==> r.value.tally.Total() == n
    ensures r.Ok? ==> |r.value.tally.latencies| == r.value.tally.successful
    ensures r.Ok? ==> 4 * n <= r.value.used <= 10 * n
  {
    if n == 0 then Ok(Progress(Tally(0, 0, 0, 0, []), 0))
    else
      match Run(p, gaussian, seed, n - 1)
      case Err(e) => Err(e)
      case Ok(pr) => Advance(pr, EventSpec(p, gaussian, seed, pr.used))
  }

  /** A run that has reached `pr` after `i` events continues with the event
      starting at the generator position `pr.used`. */
  lemma RunStep(p: Params, gaussian: Gaussian, seed: int, i: nat, pr: Progress)
    requires Run(p, gaussian, seed, i) == Ok(pr)
    ensures Run(p, gaussian, seed, i + 1) == Advance(pr, EventSpec(p, gaussian, seed, pr.used))
  {
  }

  /** What one pass of the loop body reports (`o`, with the generator at
      `calls`) is what `Advance` makes of the event it processed. */
  lemma AdvanceBy(pr: Progress, ev: Result<Event>, o: Result<Outcome>, calls: nat)
    requires match ev
      case Err(e) => o == Err(e)
      case Ok(x) => o == Ok(x.outcome) && calls == pr.used + x.draws
    ensures o.Err? ==> Advance(pr, ev) == Err(o.error)
    ensures o.Ok? ==> Advance(pr, ev) == Ok(Progress(Record(pr.tally, o.value), calls))
  {
  }

  /** Once an event fails, the run fails with that error however long it was meant to be. */
  lemma {:induction false} RunErrorPersists(p: Params, gaussian: Gaussian, seed: int, i: nat, n: nat)
    requires i <= n && Run(p, gaussian, seed, i).Err?
    ensures Run(p, gaussian, seed, n) == Run(p, gaussian, seed, i)
    decreases n
  {
    if i < n {
      RunErrorPersists(p, gaussian, seed, i, n - 1);
    }
  }

  /** The tuple `simulate` returns. */
  datatype RunResult = RunResult(blocked: nat, detected: nat, ipsBlocked: nat, successful: nat,
                                 totalLatency: real, latencies: seq<real>)

  /** What `simulate` computes for `events` events from the fixed default seed. */
  function SimulateSpec(config: Config, events: nat, gaussian: Gaussian): Result<RunResult>
    requires IsComplete(config)
  {
    match Run(ParamsOf(config), gaussian, DefaultSeed, events)
    case Err(e) => Err(e)
    case Ok(pr) =>
      var t := pr.tally;
      Ok(RunResult(t.blocked, t.detected, t.ipsBlocked, t.successful, Sum(t.latencies), t.latencies))
  }

  /** A run that succeeds accounts for every event exactly once and records one
      latency per successful attack, whose sum is the fifth component. */
  lemma SimulateAccounts(config: Config, events: nat, gaussian: Gaussian)
    requires IsComplete(config)
    requires SimulateSpec(config, events, gaussian).Ok?
    ensures var r := SimulateSpec(config, events, gaussian).value;
      && r.blocked + r.detected + r.ipsBlocked + r.successful == events
      && |r.latencies| == r.successful
      && r.totalLatency == Sum(r.latencies)
  {
  }

  // ---------------------------------------------------------------------
  // The stages as objects over one shared generator.
  // ---------------------------------------------------------------------

  class AttackGenerator {
    /** Draws three values; `lambdaAttacks` has no effect. */
    static method Generate(lcg: Lcg, lambdaAttacks: real) returns (attack: Attack)
      requires lcg.Valid()
      modifies lcg
      ensures lcg.Valid() && lcg.calls == old(lcg.calls) + GenerateDraws
      ensures attack == GenerateSpec(lcg.seed, old(lcg.calls))
      ensures attack.kind == DDoS <==> lcg.outputs[old(lcg.calls) + 1] < 0.5
    {
      var _ := lcg.Next();
      var draw := lcg.Next();
      var kind := if draw < 0.5 then DDoS else Phishing;
      var complexity := lcg.Next();
      attack := Attack(kind, complexity);
    }
  }

  class Firewall {
    const lcg: Lcg

    constructor (lcg: Lcg)
      ensures this.lcg == lcg
    {
      this.lcg := lcg;
    }

    method Process(attack: Attack) returns (blocked: bool)
      requires lcg.Valid()
      modifies lcg
      ensures lcg.Valid() && lcg.calls == old(lcg.calls) + FirewallDraws(attack.kind)
      ensures blocked == FirewallSpec(attack.kind, lcg.seed, old(lcg.calls))
      ensures blocked ==> attack.kind == DDoS && lcg.outputs[old(lcg.calls)] < 0.8
    {
      blocked := false;
      if attack.kind == DDoS {
        var u := lcg.Next();
        blocked := u < 0.8;
      }
    }
  }

  class Ids {
    const mu: real
    const sigma: real

    constructor (mu: real, sigma: real)
      ensures this.mu == mu && this.sigma == sigma
    {
      this.mu := mu;
      this.sigma := sigma;
    }

    method Process(lcg: Lcg, gaussian: Gaussian) returns (r: Result<real>)
      requires lcg.Valid()
      modifies lcg
      ensures lcg.Valid() && lcg.calls == old(lcg.calls) + IdsDraws
      ensures r == IdsSpec(mu, sigma, gaussian, lcg.seed, old(lcg.calls))
      ensures r.Err? <==> lcg.outputs[old(lcg.calls)] == 0.0
    {
      ghost var at := lcg.calls;
      var u1 := lcg.Next();
      var u2 := lcg.Next();
      assert u1 == DrawAt(lcg.seed, at) && u2 == DrawAt(lcg.seed, at + 1);
      if u1 == 0.0 {
        return Err(MathDomainError);
      }
      r := Ok(gaussian(u1, u2, mu, sigma));
    }
  }

  class Ips {
    const mu: real
    const sigma: real
    const blockRate: real

    constructor (mu: real, sigma: real, blockRate: real)
      ensures this.mu == mu && this.sigma == sigma && this.blockRate == blockRate
    {
      this.mu := mu;
      this.sigma := sigma;
      this.blockRate := blockRate;
    }

    /** Three draws when it gets as far as the blocking decision, two when the
        logarithm fails first. */
    method Process(lcg: Lcg, gaussian: Gaussian) returns (r: Result<IpsDecision>)
      requires lcg.Valid()
      modifies lcg
      ensures lcg.Valid()
      ensures lcg.calls == old(lcg.calls) + (if r.Ok? then IpsDraws else 2)
      ensures r == IpsSpec(mu, sigma, blockRate, gaussian, lcg.seed, old(lcg.calls))
      ensures r.Ok? ==> 0.0 <= r.value.time
      ensures r.Ok? ==> (r.value.blocked <==> lcg.outputs[old(lcg.calls) + 2] < blockRate)
    {
      var u1 := lcg.Next();
      var u2 := lcg.Next();
      if u1 == 0.0 {
        return Err(MathDomainError);
      }
      var time := gaussian(u1, u2, mu, sigma);
      time := if 0.0 > time then 0.0 else time;
      var u := lcg.Next();
      r := Ok(IpsDecision(time, u < blockRate));
    }
  }

  /** The body of the loop in `simulate` for one attack: the terminal state it
      reaches, or the error that ends the run. The counters are left to the loop. */
  method ProcessAttack(lcg: Lcg, firewall: Firewall, ids: Ids, ips: Ips, p: Params,
                       gaussian: Gaussian) returns (r: Result<Outcome>)
    requires lcg.Valid() && firewall.lcg == lcg
    requires ids.mu == p.idsMu && ids.sigma == p.idsSigma
    requires ips.mu == p.ipsMu && ips.sigma == p.ipsSigma && ips.blockRate == p.ipsBlockRate
    modifies lcg
    ensures lcg.Valid()
    ensures match EventSpec(p, gaussian, lcg.seed, old(lcg.calls))
      case Err(e) => r == Err(e)
      case Ok(ev) => r == Ok(ev.outcome) && lcg.calls == old(lcg.calls) + ev.draws
  {
    ghost var at := lcg.calls;
    var attack := AttackGenerator.Generate(lcg, p.lambdaAttacks);
    var blocked := firewall.Process(attack);
    if blocked {
      return Ok(FirewallBlocked);
    }
    ghost var idsAt := lcg.calls;
    assert EventSpec(p, gaussian, lcg.seed, at) == PastFirewall(p, gaussian, lcg.seed, at, attack.kind, idsAt);
    var timeIds := ids.Process(lcg, gaussian);
    if timeIds.Err? {
      return Err(timeIds.error);
    }
    var u := lcg.Next();
    if u < p.correctDetection {
      return Ok(Detected);
    }
    ghost var ipsAt := lcg.calls;
    assert PastFirewall(p, gaussian, lcg.seed, at, attack.kind, idsAt)
      == PastIds(p, gaussian, lcg.seed, at, attack.kind, timeIds.value, ipsAt);
    var decision := ips.Process(lcg, gaussian);
    if decision.Err? {
      return Err(decision.error);
    }
    if decision.value.blocked {
      return Ok(IpsBlocked);
    }
    return Ok(Successful(timeIds.value + decision.value.time));
  }

  /** `simulate`: `events` attacks (1,000,000 in the source) through the
      pipeline, with a generator built from the default seed. */
  method Simulate(config: Config, events: nat, gaussian: Gaussian) returns (r: Result<RunResult>)
    requires IsComplete(config)
    ensures r == SimulateSpec(config, events, gaussian)
    ensures r.Ok? ==> r.value.blocked + r.value.detected + r.value.ipsBlocked + r.value.successful == events
    ensures r.Ok? ==> |r.value.latencies| == r.value.successful
    ensures r.Ok? ==> r.value.totalLatency == Sum(r.value.latencies)
  {
    var p := ParamsOf(config);
    var lcg := new Lcg();
    var firewall := new Firewall(lcg);
    var ids := new Ids(p.idsMu, p.idsSigma);
    var ips := new Ips(p.ipsMu, p.ipsSigma, p.ipsBlockRate);

    var tally := Tally(0, 0, 0, 0, []);
    var i := 0;
    while i < events
      invariant i <= events
      invariant lcg.Valid() && lcg.seed == DefaultSeed && firewall.lcg == lcg
      invariant ids.mu == p.idsMu && ids.sigma == p.idsSigma
      invariant ips.mu == p.ipsMu && ips.sigma == p.ipsSigma && ips.blockRate == p.ipsBlockRate
      invariant Run(p, gaussian, DefaultSeed, i) == Ok(Progress(tally, lcg.calls))
    {
      ghost var pr := Progress(tally, lcg.calls);
      ghost var ev := EventSpec(p, gaussian, DefaultSeed, pr.used);
      var outcome := ProcessAttack(lcg, firewall, ids, ips, p, gaussian);
      RunStep(p, gaussian, DefaultSeed, i, pr);
      AdvanceBy(pr, ev, outcome, lcg.calls);
      if outcome.Err? {
        RunErrorPersists(p, gaussian, DefaultSeed, i + 1, events);
        return Err(outcome.error);
      }
      tally := Record(tally, outcome.value);
      i := i + 1;
    }
    r := Ok(RunResult(tally.blocked, tally.detected, tally.ipsBlocked, tally.successful,
                      Sum(tally.latencies), tally.latencies));
  }
}
