/**
 * The kill/restart gate: rounds of acknowledged seed commits, a concurrent live writer, SIGKILL at
 * any point, restart, and a check of what survived. The server may apply a received commit, whole,
 * at any time until it is killed, and answers only after that. Each event is a stretch between two
 * awaits, or a move of the server.
 */
module RecoveryGate {
  import opened Generator
  import opened Text
  import opened RecoveryNames

  datatype Plan = Plan(rounds: nat, seeds: nat, minimumDelay: nat, maximumDelay: nat)

  const SEED: int := 0x9e3779b9

  /** Where the main program stands. */
  datatype Phase =
    | Boot
    | Check
    | Seed(commit: nat)
    | SeedWait(commit: nat)
    | Live
    | Killed
    | FinalBoot
    | FinalCheck
    | Finished

  /** Where the concurrent live writer stands. */
  datatype Writer = Stopped | Ready(live: nat) | Waiting(live: nat)

  datatype Gate = Gate(
    round: nat,
    phase: Phase,
    writer: Writer,
    attempts: seq<string>,
    acknowledged: set<string>,
    documents: set<string>,
    received: set<string>,
    servers: nat,
    generator: int,
    killDelay: int,
    lost: nat,
    partial: nat,
    mismatch: bool)

  datatype Event =
    | StartServer          // spawned and listening
    | Verify               // the recovery query answered and was counted
    | SendSeed             // the next seed commit is attempted
    | SeedAnswered         // its acknowledgement arrived
    | StartWriter          // seeds done: draw the delay, start the live writer
    | SendLive             // the writer attempts its next commit
    | LiveAnswered         // its acknowledgement arrived
    | LiveInterrupted      // the connection broke or timed out, or the thousandth commit is done
    | Kill                 // SIGKILL reached the server
    | JoinWriter           // the writer returned; the round is recorded
    | Apply(id: string)    // the server makes a received commit durable, both documents at once
    | Lose(name: string)   // a faulty server forgets a document

  const LIVE_LIMIT: nat := 1000

  function Start(): Gate {
    Gate(0, Boot, Stopped, [], {}, {}, {}, 0, SEED, 0, 0, 0, false)
  }

  // ----- counting what survived -----

  predicate Survived(id: string, documents: set<string>) {
    DocumentName(id, Left) in documents && DocumentName(id, Right) in documents
  }

  predicate Torn(id: string, documents: set<string>) {
    (DocumentName(id, Left) in documents) != (DocumentName(id, Right) in documents)
  }

  function LostIds(acknowledged: set<string>, documents: set<string>): set<string> {
    set id | id in acknowledged && !Survived(id, documents)
  }

  function TornIds(attempted: set<string>, documents: set<string>): set<string> {
    set id | id in attempted && Torn(id, documents)
  }

  function Attempted(g: Gate): set<string> {
    set id | id in g.attempts
  }

  lemma TornStep(done: set<string>, id: string, names: set<string>)
    ensures TornIds(done + {id}, names) == TornIds(done, names) + if Torn(id, names) then {id} else {}
  {
  }

  lemma LostStep(done: set<string>, id: string, names: set<string>)
    ensures LostIds(done + {id}, names) == LostIds(done, names) + if Survived(id, names) then {} else {id}
  {
  }

  /** The first loop of `verifyRecovered`. */
  method CountPartial(names: set<string>, attempted: set<string>) returns (partial: nat)
    ensures partial == |TornIds(attempted, names)|
  {
    partial := 0;
    var rest := attempted;
    while rest != {}
      invariant rest <= attempted && partial == |TornIds(attempted - rest, names)|
      decreases rest
    {
      var id :| id in rest;
      TornStep(attempted - rest, id, names);
      assert attempted - (rest - {id}) == attempted - rest + {id};
      var left, right := DocumentName(id, Left) in names, DocumentName(id, Right) in names;
      if left != right {
        partial := partial + 1;
      }
      rest := rest - {id};
    }
    assert attempted - {} == attempted;
  }

  /** The second loop of `verifyRecovered`. */
  method CountLost(names: set<string>, acknowledged: set<string>) returns (lost: nat)
    ensures lost == |LostIds(acknowledged, names)|
  {
    lost := 0;
    var rest := acknowledged;
    while rest != {}
      invariant rest <= acknowledged && lost == |LostIds(acknowledged - rest, names)|
      decreases rest
    {
      var id :| id in rest;
      LostStep(acknowledged - rest, id, names);
      assert acknowledged - (rest - {id}) == acknowledged - rest + {id};
      if DocumentName(id, Left) !in names || DocumentName(id, Right) !in names {
        lost := lost + 1;
      }
      rest := rest - {id};
    }
    assert acknowledged - {} == acknowledged;
  }

  method VerifyRecovered(names: set<string>, attempted: set<string>, acknowledged: set<string>)
    returns (lost: nat, partial: nat)
    ensures lost == |LostIds(acknowledged, names)| && partial == |TornIds(attempted, names)|
  {
    partial := CountPartial(names, attempted);
    lost := CountLost(names, acknowledged);
  }

  // ----- the transitions -----

  function PendingSeed(g: Gate): string
    requires g.phase.SeedWait?
  {
    SeedId(g.round, g.phase.commit)
  }

  predicate Up(g: Gate) {
    !g.phase.Boot? && !g.phase.FinalBoot? && !g.phase.Killed?
  }

  predicate Enabled(g: Gate, plan: Plan, e: Event) {
    match e
    case StartServer => (g.phase.Boot? && g.round < plan.rounds) || g.phase.FinalBoot?
    case Verify => g.phase.Check? || g.phase.FinalCheck?
    case SendSeed => g.phase.Seed? && g.phase.commit < plan.seeds
    case SeedAnswered => g.phase.SeedWait? && Survived(PendingSeed(g), g.documents)
    case StartWriter => g.phase.Seed? && g.phase.commit >= plan.seeds
    case SendLive => g.writer.Ready? && g.writer.live < LIVE_LIMIT
    case LiveAnswered => g.writer.Waiting? && Survived(LiveId(g.round, g.writer.live), g.documents)
    case LiveInterrupted => g.writer.Waiting? || (g.writer.Ready? && g.writer.live >= LIVE_LIMIT)
    case Kill => g.phase.Live?
    case JoinWriter => g.phase.Killed? && g.writer.Stopped?
    case Apply(id) => Up(g) && id in g.received
    case Lose(name) => name in g.documents
  }

  function NextBoot(round: nat, plan: Plan): Phase {
    if round < plan.rounds then Boot else FinalBoot
  }

  predicate Sane(plan: Plan) {
    plan.minimumDelay <= plan.maximumDelay
  }

  /** `minimum + (state % span)`. */
  function DelayOf(state: int, plan: Plan): int
    requires Sane(plan)
  {
    plan.minimumDelay + state % (plan.maximumDelay - plan.minimumDelay + 1)
  }

  function Next(g: Gate, plan: Plan, e: Event): Gate
    requires Enabled(g, plan, e) && Sane(plan)
  {
    match e
    case StartServer =>
      g.(phase := if g.phase.Boot? then Check else FinalCheck, servers := g.servers + 1)
    case Verify =>
      var lost, partial := |LostIds(g.acknowledged, g.documents)|, |TornIds(Attempted(g), g.documents)|;
      var checked := g.(lost := lost, partial := partial);
      if g.phase.FinalCheck? then checked.(phase := Finished)
      else if lost > 0 || partial > 0 then checked.(mismatch := true, phase := FinalBoot)
      else checked.(phase := Seed(0))
    case SendSeed =>
      var id := SeedId(g.round, g.phase.commit);
      g.(attempts := g.attempts + [id], received := g.received + {id}, phase := SeedWait(g.phase.commit))
    case SeedAnswered =>
      g.(acknowledged := g.acknowledged + {PendingSeed(g)}, phase := Seed(g.phase.commit + 1))
    case StartWriter =>
      var state := Step(g.generator);
      g.(generator := state, killDelay := DelayOf(state, plan), phase := Live, writer := Ready(0))
    case SendLive =>
      var id := LiveId(g.round, g.writer.live);
      g.(attempts := g.attempts + [id], received := if Up(g) then g.received + {id} else g.received,
         writer := Waiting(g.writer.live))
    case LiveAnswered =>
      g.(acknowledged := g.acknowledged + {LiveId(g.round, g.writer.live)}, writer := Ready(g.writer.live + 1))
    case LiveInterrupted => g.(writer := Stopped)
    case Kill => g.(phase := Killed, received := {}, servers := if g.servers > 0 then g.servers - 1 else 0)
    case JoinWriter => g.(round := g.round + 1, phase := NextBoot(g.round + 1, plan))
    case Apply(id) =>
      g.(documents := g.documents + {DocumentName(id, Left), DocumentName(id, Right)}, received := g.received - {id})
    case Lose(name) => g.(documents := g.documents - {name})
  }

  ghost predicate Run(g: Gate, plan: Plan, events: seq<Event>, h: Gate)
    requires Sane(plan)
    decreases |events|
  {
    if events == [] then g == h
    else Enabled(g, plan, events[0]) && Run(Next(g, plan, events[0]), plan, events[1..], h)
  }

  predicate Possible(g: Gate, plan: Plan, events: seq<Event>)
    requires Sane(plan)
    decreases |events|
  {
    events == [] || (Enabled(g, plan, events[0]) && Possible(Next(g, plan, events[0]), plan, events[1..]))
  }

  /** The first round's boot, or straight to the final check when no round is planned. */
  function Initial(plan: Plan): Gate {
    Start().(phase := NextBoot(0, plan))
  }

  // ----- what every run against a faithful server keeps -----

  /** How many seed commits of the current round were sent, and how many were acknowledged. */
  function SeedsSent(g: Gate, plan: Plan): nat {
    match g.phase
    case Seed(c) => c
    case SeedWait(c) => c + 1
    case Live => plan.seeds
    case Killed => plan.seeds
    case _ => 0
  }

  function SeedsAcknowledged(g: Gate, plan: Plan): nat {
    if g.phase.SeedWait? then g.phase.commit else SeedsSent(g, plan)
  }

  /** A bound on the live commits of the current round. */
  function LivesSent(g: Gate): nat {
    match g.writer
    case Ready(l) => l
    case Waiting(l) => l + 1
    case Stopped => if g.phase.Live? || g.phase.Killed? then LIVE_LIMIT else 0
  }

  predicate SeedSent(g: Gate, plan: Plan, r: nat, c: nat) {
    if r < g.round then c < plan.seeds else r == g.round && c < SeedsSent(g, plan)
  }

  predicate SeedAcknowledged(g: Gate, plan: Plan, r: nat, c: nat) {
    if r < g.round then c < plan.seeds else r == g.round && c < SeedsAcknowledged(g, plan)
  }

  predicate LiveSent(g: Gate, r: nat, l: nat) {
    r < g.round || (r == g.round && l < LivesSent(g))
  }

  /** Every attempted id was made from a round and a counter already passed. */
  ghost predicate Known(g: Gate, plan: Plan, id: string) {
    || (exists r: nat, c: nat :: id == SeedId(r, c) && SeedSent(g, plan, r, c))
    || (exists r: nat, l: nat :: id == LiveId(r, l) && LiveSent(g, r, l))
  }

  predicate Final(g: Gate) {
    g.phase.FinalBoot? || g.phase.FinalCheck? || g.phase.Finished?
  }

  ghost predicate Control(g: Gate, plan: Plan) {
    && (g.writer.Stopped? || g.phase.Live? || g.phase.Killed?)
    && (g.writer.Ready? ==> g.writer.live <= LIVE_LIMIT)
    && (g.writer.Waiting? ==> g.writer.live < LIVE_LIMIT)
    && (g.phase.Seed? ==> g.phase.commit <= plan.seeds)
    && (g.phase.SeedWait? ==> g.phase.commit < plan.seeds)
    && (if Final(g) then g.round == plan.rounds else g.round < plan.rounds)
    && g.servers == (if Up(g) then 1 else 0) && (!Up(g) ==> g.received == {})
    && !g.mismatch && g.lost == 0 && g.partial == 0
  }

  ghost predicate Distinct(ids: seq<string>) {
    forall i, j :: 0 <= i < j < |ids| ==> ids[i] != ids[j]
  }

  ghost predicate Attempts(g: Gate, plan: Plan) {
    && Distinct(g.attempts)
    && (forall i :: 0 <= i < |g.attempts| ==> Known(g, plan, g.attempts[i]))
    && g.received <= Attempted(g)
  }

  /** Stored documents come from attempted commits, and no commit is torn. */
  ghost predicate Stored(g: Gate) {
    && (forall name :: name in g.documents ==> Owned(g, name))
    && (forall id :: id in g.attempts ==> !Torn(id, g.documents))
  }

  ghost predicate Owned(g: Gate, name: string) {
    exists id, side :: id in g.attempts && name == DocumentName(id, side)
  }

  ghost predicate Acknowledgements(g: Gate, plan: Plan) {
    && (forall id :: id in g.acknowledged ==> id in g.attempts && Survived(id, g.documents))
    && (forall r: nat, c: nat :: SeedId(r, c) in g.acknowledged <==> SeedAcknowledged(g, plan, r, c))
  }

  ghost predicate Safe(g: Gate, plan: Plan) {
    Control(g, plan) && Attempts(g, plan) && Stored(g) && Acknowledgements(g, plan)
  }

  // ----- attempts use fresh ids -----

  lemma SeedIsFresh(g: Gate, plan: Plan, c: nat)
    requires Attempts(g, plan) && g.phase == Seed(c)
    ensures SeedId(g.round, c) !in g.attempts
  {
    if SeedId(g.round, c) in g.attempts {
      assert Known(g, plan, SeedId(g.round, c));
      if r: nat, d: nat :| SeedId(g.round, c) == SeedId(r, d) && SeedSent(g, plan, r, d) {
        SeedIdInjective(g.round, c, r, d);
      } else {
        var r: nat, l: nat :| SeedId(g.round, c) == LiveId(r, l) && LiveSent(g, r, l);
        SeedIsNotLive(g.round, c, r, l);
      }
    }
  }

  lemma LiveIsFresh(g: Gate, plan: Plan, l: nat)
    requires Attempts(g, plan) && g.writer == Ready(l)
    ensures LiveId(g.round, l) !in g.attempts
  {
    if LiveId(g.round, l) in g.attempts {
      assert Known(g, plan, LiveId(g.round, l));
      if r: nat, d: nat :| LiveId(g.round, l) == SeedId(r, d) && SeedSent(g, plan, r, d) {
        SeedIsNotLive(r, d, g.round, l);
      } else {
        var r: nat, d: nat :| LiveId(g.round, l) == LiveId(r, d) && LiveSent(g, r, d);
        LiveIdInjective(g.round, l, r, d);
      }
    }
  }

  /** Progress never forgets an attempt. */
  lemma KnownGrows(g: Gate, h: Gate, plan: Plan, id: string)
    requires Known(g, plan, id)
    requires forall r: nat, c: nat :: SeedSent(g, plan, r, c) ==> SeedSent(h, plan, r, c)
    requires forall r: nat, l: nat :: LiveSent(g, r, l) ==> LiveSent(h, r, l)
    ensures Known(h, plan, id)
  {
    if r: nat, c: nat :| id == SeedId(r, c) && SeedSent(g, plan, r, c) {
      assert SeedSent(h, plan, r, c);
    } else {
      var r: nat, l: nat :| id == LiveId(r, l) && LiveSent(g, r, l);
      assert LiveSent(h, r, l);
    }
  }

  /** A new attempt owns no document yet, so it is not torn. */
  lemma AttemptKeepsStored(g: Gate, id: string)
    requires Stored(g) && id !in g.attempts
    ensures Stored(g.(attempts := g.attempts + [id]))
  {
    var h := g.(attempts := g.attempts + [id]);
    forall name | name in h.documents
      ensures Owned(h, name)
    {
      assert Owned(g, name);
      var other, side :| other in g.attempts && name == DocumentName(other, side);
      assert other in h.attempts;
    }
    forall side | DocumentName(id, side) in g.documents
      ensures false
    {
      assert Owned(g, DocumentName(id, side));
      var other, t :| other in g.attempts && DocumentName(id, side) == DocumentName(other, t);
      DocumentNameInjective(id, side, other, t);
    }
    assert !Torn(id, h.documents);
  }

  // ----- every step is safe -----

  /** The rest of an attempt: the log, the known ids and the received requests. */
  lemma AttemptKeepsAttempts(g: Gate, h: Gate, plan: Plan, id: string)
    requires Attempts(g, plan) && id !in g.attempts
    requires h.attempts == g.attempts + [id] && Known(h, plan, id)
    requires h.received <= g.received + {id}
    requires forall r: nat, c: nat :: SeedSent(g, plan, r, c) ==> SeedSent(h, plan, r, c)
    requires forall r: nat, l: nat :: LiveSent(g, r, l) ==> LiveSent(h, r, l)
    ensures Attempts(h, plan)
  {
    forall i | 0 <= i < |h.attempts|
      ensures Known(h, plan, h.attempts[i])
    {
      if i < |g.attempts| {
        KnownGrows(g, h, plan, g.attempts[i]);
      }
    }
    assert Attempted(h) == Attempted(g) + {id};
  }

  lemma SendSeedSafe(g: Gate, plan: Plan)
    requires Sane(plan) && Safe(g, plan) && Enabled(g, plan, SendSeed)
    ensures Safe(Next(g, plan, SendSeed), plan)
  {
    var c := g.phase.commit;
    var id := SeedId(g.round, c);
    var h := Next(g, plan, SendSeed);
    SeedIsFresh(g, plan, c);
    AttemptKeepsStored(g, id);
    assert Stored(h) by {
      StoredDepends(g.(attempts := g.attempts + [id]), h);
    }
    assert SeedSent(h, plan, g.round, c);
    AttemptKeepsAttempts(g, h, plan, id);
    forall r: nat, d: nat
      ensures SeedAcknowledged(h, plan, r, d) <==> SeedAcknowledged(g, plan, r, d)
    {
    }
  }

  lemma StoredDepends(g: Gate, h: Gate)
    requires Stored(g) && h.attempts == g.attempts && h.documents == g.documents
    ensures Stored(h)
  {
    forall name | name in h.documents
      ensures Owned(h, name)
    {
      assert Owned(g, name);
      var id, side :| id in g.attempts && name == DocumentName(id, side);
      assert id in h.attempts;
    }
  }

  lemma SendLiveSafe(g: Gate, plan: Plan)
    requires Sane(plan) && Safe(g, plan) && Enabled(g, plan, SendLive)
    ensures Safe(Next(g, plan, SendLive), plan)
  {
    var l := g.writer.live;
    var id := LiveId(g.round, l);
    var h := Next(g, plan, SendLive);
    LiveIsFresh(g, plan, l);
    AttemptKeepsStored(g, id);
    assert Stored(h) by {
      StoredDepends(g.(attempts := g.attempts + [id]), h);
    }
    assert LiveSent(h, g.round, l);
    AttemptKeepsAttempts(g, h, plan, id);
    forall r: nat, d: nat
      ensures SeedAcknowledged(h, plan, r, d) <==> SeedAcknowledged(g, plan, r, d)
    {
    }
  }

  /** Steps that send nothing and store nothing keep the log and the store as they are. */
  lemma QuietStep(g: Gate, h: Gate, plan: Plan)
    requires Attempts(g, plan) && Stored(g)
    requires h.attempts == g.attempts && h.documents == g.documents && h.received <= g.received
    requires forall r: nat, c: nat :: SeedSent(g, plan, r, c) ==> SeedSent(h, plan, r, c)
    requires forall r: nat, l: nat :: LiveSent(g, r, l) ==> LiveSent(h, r, l)
    ensures Attempts(h, plan) && Stored(h)
  {
    StoredDepends(g, h);
    forall i | 0 <= i < |h.attempts|
      ensures Known(h, plan, h.attempts[i])
    {
      KnownGrows(g, h, plan, g.attempts[i]);
    }
    assert Attempted(h) == Attempted(g);
  }

  lemma SeedAnsweredSafe(g: Gate, plan: Plan)
    requires Sane(plan) && Safe(g, plan) && Enabled(g, plan, SeedAnswered)
    ensures Safe(Next(g, plan, SeedAnswered), plan)
  {
    SeedAnsweredQuiet(g, plan);
    SeedAnsweredRecorded(g, plan);
  }

  lemma SeedAnsweredQuiet(g: Gate, plan: Plan)
    requires Sane(plan) && Control(g, plan) && Attempts(g, plan) && Stored(g) && Enabled(g, plan, SeedAnswered)
    ensures var h := Next(g, plan, SeedAnswered); Control(h, plan) && Attempts(h, plan) && Stored(h)
  {
    SeedAnsweredControl(g, plan);
    QuietStep(g, Next(g, plan, SeedAnswered), plan);
  }

  lemma SeedAnsweredControl(g: Gate, plan: Plan)
    requires Sane(plan) && Control(g, plan) && Enabled(g, plan, SeedAnswered)
    ensures Control(Next(g, plan, SeedAnswered), plan)
    ensures forall r: nat, c: nat ::
      SeedSent(g, plan, r, c) ==> SeedSent(Next(g, plan, SeedAnswered), plan, r, c)
    ensures forall r: nat, l: nat :: LiveSent(g, r, l) ==> LiveSent(Next(g, plan, SeedAnswered), r, l)
  {
  }

  lemma SeedAnsweredRecorded(g: Gate, plan: Plan)
    requires Sane(plan) && Control(g, plan) && Stored(g) && Acknowledgements(g, plan) && Enabled(g, plan, SeedAnswered)
    ensures Acknowledgements(Next(g, plan, SeedAnswered), plan)
  {
    var h := Next(g, plan, SeedAnswered);
    var c := g.phase.commit;
    StoredWasAttempted(g, PendingSeed(g));
    forall r: nat, d: nat
      ensures SeedId(r, d) in h.acknowledged <==> SeedAcknowledged(h, plan, r, d)
    {
      if SeedId(r, d) == SeedId(g.round, c) {
        SeedIdInjective(r, d, g.round, c);
      }
      assert SeedAcknowledged(h, plan, r, d) <==> SeedAcknowledged(g, plan, r, d) || (r == g.round && d == c);
    }
  }

  /** A stored commit was attempted. */
  lemma StoredWasAttempted(g: Gate, id: string)
    requires Stored(g) && Survived(id, g.documents)
    ensures id in g.attempts
  {
    assert Owned(g, DocumentName(id, Left));
    var other, side :| other in g.attempts && DocumentName(id, Left) == DocumentName(other, side);
    DocumentNameInjective(id, Left, other, side);
  }

  lemma LiveAnsweredSafe(g: Gate, plan: Plan)
    requires Sane(plan) && Safe(g, plan) && Enabled(g, plan, LiveAnswered)
    ensures Safe(Next(g, plan, LiveAnswered), plan)
  {
    LiveAnsweredQuiet(g, plan);
    LiveAnsweredRecorded(g, plan);
  }

  lemma LiveAnsweredQuiet(g: Gate, plan: Plan)
    requires Sane(plan) && Control(g, plan) && Attempts(g, plan) && Stored(g) && Enabled(g, plan, LiveAnswered)
    ensures var h := Next(g, plan, LiveAnswered); Control(h, plan) && Attempts(h, plan) && Stored(h)
  {
    QuietStep(g, Next(g, plan, LiveAnswered), plan);
  }

  lemma LiveAnsweredRecorded(g: Gate, plan: Plan)
    requires Sane(plan) && Control(g, plan) && Stored(g) && Acknowledgements(g, plan) && Enabled(g, plan, LiveAnswered)
    ensures Acknowledgements(Next(g, plan, LiveAnswered), plan)
  {
    var h := Next(g, plan, LiveAnswered);
    StoredWasAttempted(g, LiveId(g.round, g.writer.live));
    forall r: nat, d: nat
      ensures SeedId(r, d) in h.acknowledged <==> SeedAcknowledged(h, plan, r, d)
    {
      SeedIsNotLive(r, d, g.round, g.writer.live);
      assert SeedAcknowledged(h, plan, r, d) <==> SeedAcknowledged(g, plan, r, d);
    }
  }

  lemma ApplySafe(g: Gate, plan: Plan, id: string)
    requires Sane(plan) && Safe(g, plan) && Enabled(g, plan, Apply(id))
    ensures Safe(Next(g, plan, Apply(id)), plan)
  {
    var h := Next(g, plan, Apply(id));
    ApplyStored(g, plan, id);
    ApplyAttempts(g, plan, id);
    ApplyRecorded(g, plan, id);
  }

  lemma ApplyRecorded(g: Gate, plan: Plan, id: string)
    requires Sane(plan) && Acknowledgements(g, plan) && Enabled(g, plan, Apply(id))
    ensures Acknowledgements(Next(g, plan, Apply(id)), plan)
  {
    var h := Next(g, plan, Apply(id));
    forall r: nat, d: nat
      ensures SeedId(r, d) in h.acknowledged <==> SeedAcknowledged(h, plan, r, d)
    {
      assert SeedAcknowledged(h, plan, r, d) <==> SeedAcknowledged(g, plan, r, d);
    }
  }

  lemma ApplyAttempts(g: Gate, plan: Plan, id: string)
    requires Sane(plan) && Attempts(g, plan) && Enabled(g, plan, Apply(id))
    ensures Attempts(Next(g, plan, Apply(id)), plan)
  {
    var h := Next(g, plan, Apply(id));
    forall i | 0 <= i < |h.attempts|
      ensures Known(h, plan, h.attempts[i])
    {
      KnownGrows(g, h, plan, g.attempts[i]);
    }
    assert Attempted(h) == Attempted(g);
  }

  lemma ApplyStored(g: Gate, plan: Plan, id: string)
    requires Sane(plan) && Attempts(g, plan) && Stored(g) && Enabled(g, plan, Apply(id))
    ensures Stored(Next(g, plan, Apply(id)))
  {
    var h := Next(g, plan, Apply(id));
    assert id in Attempted(g);
    forall name | name in h.documents
      ensures Owned(h, name)
    {
      if name in g.documents {
        assert Owned(g, name);
        var other, side :| other in g.attempts && name == DocumentName(other, side);
        assert other in h.attempts;
      } else {
        assert id in h.attempts;
      }
    }
    forall other | other in h.attempts
      ensures !Torn(other, h.documents)
    {
      ApplyTearsNothing(other, id, g.documents);
    }
  }

  lemma ApplyTearsNothing(other: string, id: string, documents: set<string>)
    requires !Torn(other, documents)
    ensures !Torn(other, documents + {DocumentName(id, Left), DocumentName(id, Right)})
  {
    if other != id {
      ApplyTouchesOne(other, id);
    }
  }

  lemma ApplyTouchesOne(a: string, b: string)
    requires a != b
    ensures forall s, t :: DocumentName(a, s) != DocumentName(b, t)
  {
    forall s, t
      ensures DocumentName(a, s) != DocumentName(b, t)
    {
      if DocumentName(a, s) == DocumentName(b, t) {
        DocumentNameInjective(a, s, b, t);
      }
    }
  }

  /** Every check of a faithful server counts nothing lost and nothing torn. */
  lemma CheckCountsNothing(g: Gate, plan: Plan)
    requires Safe(g, plan)
    ensures |LostIds(g.acknowledged, g.documents)| == 0 && |TornIds(Attempted(g), g.documents)| == 0
  {
    assert LostIds(g.acknowledged, g.documents) == {};
    assert TornIds(Attempted(g), g.documents) == {};
  }

  lemma QuietSafe(g: Gate, plan: Plan, e: Event)
    requires Sane(plan) && Safe(g, plan) && Enabled(g, plan, e)
    requires e.StartServer? || e.Verify? || e.StartWriter? || e.LiveInterrupted? || e.Kill? || e.JoinWriter?
    ensures Safe(Next(g, plan, e), plan)
  {
    var h := Next(g, plan, e);
    CheckCountsNothing(g, plan);
    forall r: nat, l: nat | LiveSent(g, r, l)
      ensures LiveSent(h, r, l)
    {
    }
    forall r: nat, d: nat
      ensures SeedAcknowledged(h, plan, r, d) <==> SeedAcknowledged(g, plan, r, d)
      ensures SeedSent(g, plan, r, d) ==> SeedSent(h, plan, r, d)
    {
    }
    QuietStep(g, h, plan);
    QuietControl(g, plan, e);
  }

  lemma QuietControl(g: Gate, plan: Plan, e: Event)
    requires Sane(plan) && Safe(g, plan) && Enabled(g, plan, e)
    requires e.StartServer? || e.Verify? || e.StartWriter? || e.LiveInterrupted? || e.Kill? || e.JoinWriter?
    ensures Control(Next(g, plan, e), plan)
  {
    CheckCountsNothing(g, plan);
  }

  lemma StepSafe(g: Gate, plan: Plan, e: Event)
    requires Sane(plan) && Safe(g, plan) && Enabled(g, plan, e) && !e.Lose?
    ensures Safe(Next(g, plan, e), plan)
  {
    match e {
      case SendSeed => SendSeedSafe(g, plan);
      case SeedAnswered => SeedAnsweredSafe(g, plan);
      case SendLive => SendLiveSafe(g, plan);
      case LiveAnswered => LiveAnsweredSafe(g, plan);
      case Apply(id) => ApplySafe(g, plan, id);
      case Lose(name) =>
      case _ => QuietSafe(g, plan, e);
    }
  }

  // ----- whole runs -----

  predicate Faithful(events: seq<Event>) {
    forall i :: 0 <= i < |events| ==> !events[i].Lose?
  }

  lemma InitialSafe(plan: Plan)
    requires Sane(plan)
    ensures Safe(Initial(plan), plan)
  {
  }

  lemma {:induction false} RunSafe(g: Gate, plan: Plan, events: seq<Event>, h: Gate)
    requires Sane(plan) && Safe(g, plan) && Run(g, plan, events, h) && Faithful(events)
    ensures Safe(h, plan)
    decreases |events|
  {
    if events != [] {
      StepSafe(g, plan, events[0]);
      RunSafe(Next(g, plan, events[0]), plan, events[1..], h);
    }
  }

  function Marked(ids: set<string>): set<string> {
    set id | id in ids && Occurs(id, MARKER)
  }

  function CompletedRounds(g: Gate): nat {
    |Marked(g.acknowledged)|
  }

  ghost function FirstSeeds(n: nat): set<string> {
    set r | 0 <= r < n :: SeedId(r, 0)
  }

  lemma {:induction false} FirstSeedsCount(n: nat)
    ensures |FirstSeeds(n)| == n
  {
    if n == 0 {
      assert FirstSeeds(0) == {};
    } else {
      FirstSeedsCount(n - 1);
      assert FirstSeeds(n) == FirstSeeds(n - 1) + {SeedId(n - 1, 0)};
      forall r: nat | r < n - 1
        ensures SeedId(r, 0) != SeedId(n - 1, 0)
      {
        if SeedId(r, 0) == SeedId(n - 1, 0) {
          SeedIdInjective(r, 0, n - 1, 0);
        }
      }
    }
  }

  /** The marker picks out the first seed commit of each round. */
  lemma MarkedAreFirstSeeds(g: Gate, plan: Plan)
    requires Safe(g, plan) && plan.seeds >= 1 && g.phase.Finished?
    ensures Marked(g.acknowledged) == FirstSeeds(plan.rounds)
  {
    forall id | id in g.acknowledged && Occurs(id, MARKER)
      ensures id in FirstSeeds(plan.rounds)
    {
      MarkedIsFirstSeed(g, plan, id);
    }
    forall r: nat | r < plan.rounds
      ensures SeedId(r, 0) in g.acknowledged && Occurs(SeedId(r, 0), MARKER)
    {
      assert SeedAcknowledged(g, plan, r, 0);
      SeedMarkerIff(r, 0);
    }
  }

  lemma MarkedIsFirstSeed(g: Gate, plan: Plan, id: string)
    requires Control(g, plan) && Attempts(g, plan) && g.phase.Finished? && id in g.attempts && Occurs(id, MARKER)
    ensures id in FirstSeeds(plan.rounds)
  {
    assert Known(g, plan, id);
    if r: nat, c: nat :| id == SeedId(r, c) && SeedSent(g, plan, r, c) {
      SeedMarkerIff(r, c);
      assert r < plan.rounds;
    } else {
      var r: nat, l: nat :| id == LiveId(r, l) && LiveSent(g, r, l);
      LiveLacksMarker(r, l);
    }
  }

  /**
   * Against a server that makes each commit durable whole and before answering, with SIGKILL at any
   * point: acknowledged commits were attempted, no two attempts share a document, every check finds
   * nothing lost and nothing torn, the mismatch break is never taken, at most one server lives, and
   * no request outlives the server it was sent to.
   */
  lemma FaithfulRun(plan: Plan, events: seq<Event>, h: Gate)
    requires Sane(plan) && Run(Initial(plan), plan, events, h) && Faithful(events)
    ensures forall id :: id in h.acknowledged ==> id in h.attempts && Survived(id, h.documents)
    ensures forall i, j, s, t :: 0 <= i < j < |h.attempts| ==>
      DocumentName(h.attempts[i], s) != DocumentName(h.attempts[j], t)
    ensures LostIds(h.acknowledged, h.documents) == {} && TornIds(Attempted(h), h.documents) == {}
    ensures h.lost == 0 && h.partial == 0 && !h.mismatch && h.servers <= 1
    ensures h.phase.Killed? || h.phase.Boot? || h.phase.FinalBoot? ==> h.received == {}
  {
    InitialSafe(plan);
    RunSafe(Initial(plan), plan, events, h);
    forall i, j, s, t | 0 <= i < j < |h.attempts|
      ensures DocumentName(h.attempts[i], s) != DocumentName(h.attempts[j], t)
    {
      ApplyTouchesOne(h.attempts[i], h.attempts[j]);
    }
  }

  /** A finished faithful run with at least one seed commit per round counts every planned round. */
  lemma FinishedRunCountsRounds(plan: Plan, events: seq<Event>, h: Gate)
    requires Sane(plan) && Run(Initial(plan), plan, events, h) && Faithful(events)
    requires h.phase.Finished? && plan.seeds >= 1
    ensures CompletedRounds(h) == plan.rounds && h.round == plan.rounds
  {
    InitialSafe(plan);
    RunSafe(Initial(plan), plan, events, h);
    MarkedAreFirstSeeds(h, plan);
    FirstSeedsCount(plan.rounds);
  }

  // ----- the kill delays -----

  /** Each round draws once, before its live writer starts. */
  function Draws(g: Gate): nat {
    g.round + if g.phase.Live? || g.phase.Killed? then 1 else 0
  }

  ghost predicate Drawn(g: Gate, plan: Plan)
    requires Sane(plan)
  {
    && g.generator == Iterate(SEED, Draws(g))
    && (g.phase.Live? || g.phase.Killed? ==> DelayOf(g.generator, plan) == g.killDelay)
  }

  lemma DrawNext(state: int, k: nat)
    requires state == Iterate(SEED, k)
    ensures Step(state) == Iterate(SEED, k + 1)
  {
  }

  lemma StepDrawn(g: Gate, plan: Plan, e: Event)
    requires Sane(plan) && Drawn(g, plan) && Enabled(g, plan, e)
    ensures Drawn(Next(g, plan, e), plan)
  {
    if e.StartWriter? {
      DrawNext(g.generator, g.round);
    }
  }

  lemma {:induction false} RunDrawn(g: Gate, plan: Plan, events: seq<Event>, h: Gate)
    requires Sane(plan) && Drawn(g, plan) && Run(g, plan, events, h)
    ensures Drawn(h, plan)
    decreases |events|
  {
    if events != [] {
      StepDrawn(g, plan, events[0]);
      RunDrawn(Next(g, plan, events[0]), plan, events[1..], h);
    }
  }

  /** The k-th round waits a delay in the planned range, drawn from the k-th generator state. */
  lemma KillDelays(plan: Plan, events: seq<Event>, h: Gate)
    requires Sane(plan) && Run(Initial(plan), plan, events, h) && h.phase.Live?
    ensures h.killDelay ==
      plan.minimumDelay + Iterate(SEED, h.round + 1) % (plan.maximumDelay - plan.minimumDelay + 1)
    ensures plan.minimumDelay <= h.killDelay <= plan.maximumDelay
  {
    RunDrawn(Initial(plan), plan, events, h);
  }

  // ----- a faulty server -----

  /** Servers alive, whatever the server does: a mismatch leaves one behind. */
  ghost predicate ServerCount(g: Gate) {
    && (g.mismatch ==> Final(g))
    && g.servers == (if Up(g) then 1 else 0) + (if g.mismatch then 1 else 0)
  }

  /** A check before a round, not the final one, finds something lost or torn. */
  predicate CheckFails(g: Gate, e: Event) {
    e.Verify? && g.phase.Check? &&
    (|LostIds(g.acknowledged, g.documents)| > 0 || |TornIds(Attempted(g), g.documents)| > 0)
  }

  predicate SomeCheckFails(g: Gate, plan: Plan, events: seq<Event>)
    requires Sane(plan) && Possible(g, plan, events)
    decreases |events|
  {
    events != [] && (CheckFails(g, events[0]) || SomeCheckFails(Next(g, plan, events[0]), plan, events[1..]))
  }

  lemma {:induction false} RunServerCount(g: Gate, plan: Plan, events: seq<Event>, h: Gate)
    requires Sane(plan) && ServerCount(g) && Run(g, plan, events, h)
    ensures ServerCount(h) && Possible(g, plan, events)
    ensures h.mismatch <==> g.mismatch || SomeCheckFails(g, plan, events)
    decreases |events|
  {
    if events != [] {
      RunServerCount(Next(g, plan, events[0]), plan, events[1..], h);
    }
  }

  /**
   * On every run, faulty or not, the finished gate has a second live server exactly when the check
   * before some round found a commit lost or torn.
   */
  lemma SecondServerIff(plan: Plan, events: seq<Event>, h: Gate)
    requires Sane(plan) && Run(Initial(plan), plan, events, h) && h.phase.Finished?
    ensures Possible(Initial(plan), plan, events)
    ensures h.servers == 2 <==> SomeCheckFails(Initial(plan), plan, events)
    ensures h.servers == 1 <==> !SomeCheckFails(Initial(plan), plan, events)
  {
    RunServerCount(Initial(plan), plan, events, h);
  }

  lemma {:induction false} RunGrows(g: Gate, plan: Plan, events: seq<Event>, h: Gate, e: Event)
    requires Sane(plan) && Run(g, plan, events, h) && Enabled(h, plan, e)
    ensures Run(g, plan, events + [e], Next(h, plan, e))
    decreases |events|
  {
    if events == [] {
      assert events + [e] == [e];
    } else {
      assert (events + [e])[1..] == events[1..] + [e];
      RunGrows(Next(g, plan, events[0]), plan, events[1..], h, e);
    }
  }

  ghost predicate Reachable(plan: Plan, g: Gate)
    requires Sane(plan)
  {
    exists events :: Run(Initial(plan), plan, events, g)
  }

  lemma ReachNext(plan: Plan, g: Gate, e: Event)
    requires Sane(plan) && Reachable(plan, g) && Enabled(g, plan, e)
    ensures Reachable(plan, Next(g, plan, e))
  {
    var events :| Run(Initial(plan), plan, events, g);
    RunGrows(Initial(plan), plan, events, g, e);
  }

  /** The first round with its seed commits answered, up to commit `c`. */
  lemma {:induction false} ReachSeeds(plan: Plan, c: nat) returns (g: Gate)
    requires Sane(plan) && plan.rounds > 0 && c <= plan.seeds
    ensures Reachable(plan, g)
    ensures g.phase == Seed(c) && g.round == 0 && g.writer.Stopped?
  {
    if c == 0 {
      g := ReachFirstCheck(plan);
    } else {
      var f := ReachSeeds(plan, c - 1);
      var id := SeedId(f.round, c - 1);
      var sent := Next(f, plan, SendSeed);
      ReachNext(plan, f, SendSeed);
      var applied := Next(sent, plan, Apply(id));
      ReachNext(plan, sent, Apply(id));
      ReachNext(plan, applied, SeedAnswered);
      g := Next(applied, plan, SeedAnswered);
    }
  }

  lemma ReachFirstCheck(plan: Plan) returns (g: Gate)
    requires Sane(plan) && plan.rounds > 0
    ensures Reachable(plan, g)
    ensures g.phase == Seed(0) && g.round == 0 && g.writer.Stopped?
  {
    var i := Initial(plan);
    assert Run(i, plan, [], i);
    ReachNext(plan, i, StartServer);
    var booted := Next(i, plan, StartServer);
    assert LostIds(booted.acknowledged, booted.documents) == {} && TornIds(Attempted(booted), booted.documents) == {};
    ReachNext(plan, booted, Verify);
    g := Next(booted, plan, Verify);
  }

  /** A live commit is acknowledged, and the server dies under the next one. */
  lemma ReachKilled(plan: Plan) returns (g: Gate, id: string)
    requires Sane(plan) && plan.rounds > 0
    ensures Reachable(plan, g)
    ensures g.phase.Killed? && g.round == 0 && g.writer.Stopped? && id in g.acknowledged && Survived(id, g.documents)
  {
    var f := ReachSeeds(plan, plan.seeds);
    id := LiveId(f.round, 0);
    ReachNext(plan, f, StartWriter);
    var f1 := Next(f, plan, StartWriter);
    ReachNext(plan, f1, SendLive);
    var f2 := Next(f1, plan, SendLive);
    ReachNext(plan, f2, Apply(id));
    var f3 := Next(f2, plan, Apply(id));
    ReachNext(plan, f3, LiveAnswered);
    var f4 := Next(f3, plan, LiveAnswered);
    ReachNext(plan, f4, SendLive);
    var f5 := Next(f4, plan, SendLive);
    ReachNext(plan, f5, Kill);
    var f6 := Next(f5, plan, Kill);
    ReachNext(plan, f6, LiveInterrupted);
    g := Next(f6, plan, LiveInterrupted);
  }

  /** The killed server forgets a document of the acknowledged commit, and the next check sees it. */
  lemma ReachMismatch(plan: Plan) returns (g: Gate)
    requires Sane(plan) && plan.rounds > 1
    ensures Reachable(plan, g) && g.phase.FinalBoot? && g.mismatch
  {
    var f, id := ReachKilled(plan);
    ReachNext(plan, f, JoinWriter);
    var f1 := Next(f, plan, JoinWriter);
    ReachNext(plan, f1, Lose(DocumentName(id, Left)));
    var f2 := Next(f1, plan, Lose(DocumentName(id, Left)));
    ReachNext(plan, f2, StartServer);
    var f3 := Next(f2, plan, StartServer);
    assert id in LostIds(f3.acknowledged, f3.documents);
    ReachNext(plan, f3, Verify);
    g := Next(f3, plan, Verify);
  }

  /** With one round the only check before a round comes before any commit. */
  ghost predicate NothingToLose(g: Gate) {
    && !g.mismatch
    && (g.writer.Stopped? || g.phase.Live? || g.phase.Killed?)
    && (g.phase.Boot? || g.phase.Check? ==> g.attempts == [] && g.acknowledged == {})
  }

  lemma {:induction false} OneRoundNeverMismatches(g: Gate, plan: Plan, events: seq<Event>, h: Gate)
    requires Sane(plan) && plan.rounds <= 1 && NothingToLose(g) && Run(g, plan, events, h)
    ensures !h.mismatch
    decreases |events|
  {
    if events != [] {
      if events[0].Verify? && g.phase.Check? {
        assert LostIds(g.acknowledged, g.documents) == {} && TornIds(Attempted(g), g.documents) == {};
      }
      OneRoundNeverMismatches(Next(g, plan, events[0]), plan, events[1..], h);
    }
  }

  /** The gate can finish with a second server alive exactly when it plans more than one round. */
  lemma TwoServersReachableIff(plan: Plan)
    requires Sane(plan)
    ensures (exists h :: Reachable(plan, h) && h.phase.Finished? && h.servers == 2) <==> plan.rounds > 1
  {
    if plan.rounds > 1 {
      var g := ReachMismatch(plan);
      ReachNext(plan, g, StartServer);
      var g1 := Next(g, plan, StartServer);
      ReachNext(plan, g1, Verify);
      var h := Next(g1, plan, Verify);
      var events :| Run(Initial(plan), plan, events, h);
      RunServerCount(Initial(plan), plan, events, h);
      assert Reachable(plan, h) && h.phase.Finished? && h.servers == 2;
    } else {
      forall h | Reachable(plan, h) && h.phase.Finished?
        ensures h.servers != 2
      {
        var events :| Run(Initial(plan), plan, events, h);
        RunServerCount(Initial(plan), plan, events, h);
        OneRoundNeverMismatches(Initial(plan), plan, events, h);
      }
    }
  }

  // ----- the harness -----

  lemma MarkedStep(done: set<string>, id: string)
    ensures Marked(done + {id}) == Marked(done) + if Occurs(id, MARKER) then {id} else {}
  {
  }

  method CountCompletedRounds(acknowledged: set<string>) returns (count: nat)
    ensures count == |Marked(acknowledged)|
  {
    count := 0;
    var rest := acknowledged;
    while rest != {}
      invariant rest <= acknowledged && count == |Marked(acknowledged - rest)|
      decreases rest
    {
      var id :| id in rest;
      MarkedStep(acknowledged - rest, id);
      assert acknowledged - (rest - {id}) == acknowledged - rest + {id};
      if Occurs(id, MARKER) {
        count := count + 1;
      }
      rest := rest - {id};
    }
    assert acknowledged - {} == acknowledged;
  }

  /** What holds beside any server: the servers alive and the delays drawn. */
  ghost predicate Accounted(g: Gate, plan: Plan) {
    Sane(plan) && ServerCount(g) && Drawn(g, plan)
  }

  lemma StepAccounted(g: Gate, plan: Plan, e: Event)
    requires Accounted(g, plan) && Enabled(g, plan, e)
    ensures Accounted(Next(g, plan, e), plan)
  {
    StepDrawn(g, plan, e);
  }

  /**
   * The report of a check: `lost` counts the acknowledged commits with a side missing from the store,
   * `partial` the attempted commits of which exactly one side is stored.
   */
  ghost predicate Reports(g: Gate) {
    && g.lost == |set id | id in g.acknowledged &&
                    (DocumentName(id, Left) !in g.documents || DocumentName(id, Right) !in g.documents)|
    && g.partial == |set id | id in g.attempts &&
                       (DocumentName(id, Left) in g.documents) != (DocumentName(id, Right) in g.documents)|
  }

  lemma VerifyReports(g: Gate, plan: Plan)
    requires Sane(plan) && Enabled(g, plan, Verify)
    ensures Reports(Next(g, plan, Verify))
  {
    var h := Next(g, plan, Verify);
    assert LostIds(g.acknowledged, g.documents) ==
      set id | id in h.acknowledged &&
        (DocumentName(id, Left) !in h.documents || DocumentName(id, Right) !in h.documents);
    assert TornIds(Attempted(g), g.documents) ==
      set id | id in h.attempts &&
        (DocumentName(id, Left) in h.documents) != (DocumentName(id, Right) in h.documents);
  }

  /** On every run, whatever the server forgot, a check reports exactly what is missing and torn. */
  lemma {:induction false} EveryCheckReports(g: Gate, plan: Plan, events: seq<Event>, h: Gate)
    requires Sane(plan) && events != [] && events[|events| - 1].Verify? && Run(g, plan, events, h)
    ensures Reports(h)
    decreases |events|
  {
    var next := Next(g, plan, events[0]);
    if |events| == 1 {
      VerifyReports(g, plan);
      assert events[1..] == [] && next == h;
    } else {
      assert events[1..][|events| - 2] == events[|events| - 1];
      EveryCheckReports(next, plan, events[1..], h);
    }
  }

  /** What the manifest allows. */
  datatype Allowance = Allowance(acknowledged: nat, lost: nat, partial: nat)

  /** The gate as the harness holds it; the stored documents belong to the server. */
  class Harness {
    const plan: Plan
    var round: nat
    var phase: Phase
    var writer: Writer
    var attempts: seq<string>
    var acknowledged: set<string>
    var documents: set<string>
    var received: set<string>
    var servers: nat
    var generator: int
    var killDelay: int
    var lost: nat
    var partial: nat
    var mismatch: bool

    constructor (plan: Plan)
      requires Sane(plan)
      ensures Valid() && Trusted() && this.plan == plan && State() == Initial(plan)
    {
      this.plan := plan;
      round, phase, writer := 0, NextBoot(0, plan), Stopped;
      attempts, acknowledged, documents, received := [], {}, {}, {};
      servers, generator, killDelay, lost, partial, mismatch := 0, SEED, 0, 0, 0, false;
      new;
      InitialSafe(plan);
    }

    function State(): Gate
      reads this
    {
      Gate(round, phase, writer, attempts, acknowledged, documents, received, servers, generator, killDelay,
           lost, partial, mismatch)
    }

    ghost predicate Valid()
      reads this
    {
      Accounted(State(), plan)
    }

    /** The server lost nothing so far. */
    ghost predicate Trusted()
      reads this
    {
      Safe(State(), plan)
    }

    method Attempt(id: string)
      modifies this`attempts, this`received
      ensures attempts == old(attempts) + [id]
      ensures received == if Up(State()) then old(received) + {id} else old(received)
    {
      attempts := attempts + [id];
      if Up(State()) {
        received := received + {id};
      }
    }

    method Check()
      requires Valid() && (phase.Check? || phase.FinalCheck?)
      modifies this`lost, this`partial, this`mismatch, this`phase
      ensures State() == Next(old(State()), plan, Verify)
      ensures phase.FinalBoot? <==> CheckFails(old(State()), Verify)
    {
      var attempted := set id | id in attempts;
      lost, partial := VerifyRecovered(documents, attempted, acknowledged);
      if phase.FinalCheck? {
        phase := Finished;
      } else if lost > 0 || partial > 0 {
        mismatch := true;
        phase := FinalBoot;
      } else {
        phase := Seed(0);
      }
    }

    /** Moves of the main program and of the live writer between two awaits. */
    method Advance(e: Event)
      requires Valid() && Enabled(State(), plan, e) && !e.Verify?
      modifies this
      ensures State() == Next(old(State()), plan, e)
    {
      match e {
        case StartServer =>
          phase := if phase.Boot? then Phase.Check else FinalCheck;
          servers := servers + 1;
        case SendSeed =>
          Attempt(SeedId(round, phase.commit));
          phase := SeedWait(phase.commit);
        case SeedAnswered =>
          acknowledged := acknowledged + {SeedId(round, phase.commit)};
          phase := Seed(phase.commit + 1);
        case StartWriter =>
          generator := Step(generator);
          killDelay := DelayOf(generator, plan);
          phase, writer := Live, Ready(0);
        case SendLive =>
          Attempt(LiveId(round, writer.live));
          writer := Waiting(writer.live);
        case LiveAnswered =>
          acknowledged := acknowledged + {LiveId(round, writer.live)};
          writer := Ready(writer.live + 1);
        case LiveInterrupted =>
          writer := Stopped;
        case Kill =>
          phase, received := Killed, {};
          servers := servers - 1;
        case JoinWriter =>
          round := round + 1;
          phase := NextBoot(round, plan);
        case Apply(id) =>
          documents := documents + {DocumentName(id, Left), DocumentName(id, Right)};
          received := received - {id};
        case Lose(name) =>
          documents := documents - {name};
      }
    }

    /**
     * One stretch between awaits, or one move of the server. While the server forgets nothing, no
     * acknowledged commit is lost, none is torn, and no check fails. Whatever it forgets, a check
     * reports exactly what is missing and torn.
     */
    method Perform(e: Event)
      requires Valid() && Enabled(State(), plan, e)
      modifies this
      ensures Valid() && State() == Next(old(State()), plan, e)
      ensures old(Trusted()) && !e.Lose? ==> Trusted() && lost == 0 && partial == 0 && !mismatch
      ensures old(Trusted()) && !e.Lose? ==> forall id :: id in acknowledged ==> Survived(id, documents)
      ensures mismatch <==> old(mismatch) || CheckFails(old(State()), e)
      ensures e.Verify? ==> Reports(State())
    {
      ghost var before := State();
      StepAccounted(before, plan, e);
      if e.Verify? {
        VerifyReports(before, plan);
      }
      if Trusted() && !e.Lose? {
        StepSafe(before, plan, e);
      }
      if e.Verify? {
        Check();
      } else {
        Advance(e);
      }
      assert State() == Next(before, plan, e);
    }
  }

  /**
   * The gate under any schedule of events. Against a server that forgets nothing it reports nothing
   * lost, nothing torn and every planned round; a second server is alive at the end exactly when a
   * check before a round failed. Whatever the server forgot, a run that ends with its check passes only
   * when the commits missing from the store and the torn ones are as few as allowed.
   */
  method RunRecoveryGate(plan: Plan, allowance: Allowance, events: seq<Event>)
    returns (h: Gate, completedRounds: nat, passed: bool)
    requires Sane(plan) && Possible(Initial(plan), plan, events)
    ensures Run(Initial(plan), plan, events, h)
    ensures Faithful(events) ==> h.lost == 0 && h.partial == 0 && !h.mismatch
    ensures Faithful(events) && h.phase.Finished? && plan.seeds >= 1 ==>
      completedRounds == plan.rounds && (passed <==> |h.acknowledged| >= allowance.acknowledged)
    ensures h.phase.Finished? ==> (h.servers == 2 <==> SomeCheckFails(Initial(plan), plan, events))
    ensures events != [] && events[|events| - 1].Verify? ==> Reports(h)
    ensures passed <==>
      && |set id | id in h.acknowledged && Occurs(id, "-seed-000")| == plan.rounds
      && |h.acknowledged| >= allowance.acknowledged && h.lost <= allowance.lost && h.partial <= allowance.partial
  {
    var harness := new Harness(plan);
    assert events[..0] == [] && events[0..] == events;
    for k := 0 to |events|
      invariant harness.Valid() && harness.plan == plan
      invariant Run(Initial(plan), plan, events[..k], harness.State())
      invariant Possible(harness.State(), plan, events[k..])
      invariant Faithful(events) ==> harness.Trusted()
      invariant k > 0 && events[k - 1].Verify? ==> Reports(harness.State())
    {
      assert events[k..][0] == events[k] && events[k..][1..] == events[k + 1..];
      assert events[..k + 1] == events[..k] + [events[k]];
      RunGrows(Initial(plan), plan, events[..k], harness.State(), events[k]);
      harness.Perform(events[k]);
    }
    assert events[..|events|] == events;
    h := harness.State();
    completedRounds := CountCompletedRounds(h.acknowledged);
    passed := plan.rounds == completedRounds && |h.acknowledged| >= allowance.acknowledged
      && h.lost <= allowance.lost && h.partial <= allowance.partial;
    RunServerCount(Initial(plan), plan, events, h);
    assert Marked(h.acknowledged) == set id | id in h.acknowledged && Occurs(id, "-seed-000");
    if Faithful(events) && h.phase.Finished? && plan.seeds >= 1 {
      FinishedRunCountsRounds(plan, events, h);
    }
  }
}
