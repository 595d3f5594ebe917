/** The one-time invite: guarded claims, reverts, and the workers that sign tenants up with it. */
module Invites {
  import opened Prelude

  datatype InviteStatus = Pending | Consumed | Revoked

  datatype Invite = Invite(status: InviteStatus, expiresAt: int, org: Option<int>)

  // ---- The row updates

  /** Valid for signing up: pending and not yet expired. */
  predicate Open(i: Invite, now: int) { i.status.Pending? && i.expiresAt > now }

  /** The guarded update of a claim: the row after it, and whether this call moved it. */
  function Claim(i: Invite, now: int): (Invite, bool) {
    if Open(i, now) then (i.(status := Consumed), true) else (i, false)
  }

  /** Undo a claim, only while no tenant is recorded. */
  function RevertClaim(i: Invite): Invite {
    if i.status.Consumed? && i.org.None? then i.(status := Pending) else i
  }

  function MarkConsumedOrg(i: Invite, org: int): Invite { i.(org := Some(org)) }

  function Consume(i: Invite, org: int): Invite { i.(status := Consumed, org := Some(org)) }

  function Revoke(i: Invite): Invite { i.(status := Revoked) }

  /** The row as an object its callers update in place. */
  class InviteRow {
    var status: InviteStatus
    const expiresAt: int
    var org: Option<int>

    function Value(): Invite
      reads this
    {
      Invite(status, expiresAt, org)
    }

    constructor (expiresAt: int)
      ensures Value() == Invite(Pending, expiresAt, None)
    {
      this.status, this.expiresAt, this.org := Pending, expiresAt, None;
    }

    method Validate(now: int) returns (ok: bool)
      ensures ok <==> Open(Value(), now)
    {
      if status != Pending {
        return false;
      }
      if expiresAt <= now {
        return false;
      }
      ok := true;
    }

    method TryClaim(now: int) returns (won: bool)
      modifies this
      ensures (Value(), won) == Claim(old(Value()), now)
      ensures won ==> status.Consumed? && !Open(Value(), now)
    {
      won := status == Pending && expiresAt > now;
      if won {
        status := Consumed;
      }
    }

    method Revert()
      modifies this
      ensures Value() == RevertClaim(old(Value()))
      ensures old(org).Some? ==> Value() == old(Value())
    {
      if status == Consumed && org == None {
        status := Pending;
      }
    }

    method RecordOrg(id: int)
      modifies this
      ensures Value() == MarkConsumedOrg(old(Value()), id)
      ensures RevertClaim(Value()) == Value()
    {
      org := Some(id);
    }

    method ConsumeFor(id: int)
      modifies this
      ensures Value() == Consume(old(Value()), id)
      ensures forall now :: !Open(Value(), now)
      ensures RevertClaim(Value()) == Value()
    {
      status := Consumed;
      org := Some(id);
    }

    method Withdraw()
      modifies this
      ensures Value() == Revoke(old(Value()))
      ensures forall now :: !Open(Value(), now)
      ensures RevertClaim(Value()) == Value()
    {
      status := Revoked;
    }
  }

  /** A claim wins exactly while the invite is pending and its expiry lies ahead; at or after it none does. */
  lemma ClaimExact(i: Invite, now: int)
    ensures Claim(i, now).1 <==> i.status == Pending && now < i.expiresAt
    ensures Claim(i, now).0 == if Claim(i, now).1 then Invite(Consumed, i.expiresAt, i.org) else i
  {
  }

  /** No update moves the expiry, so once it has passed no sequence of updates lets a claim win. */
  lemma {:induction false} ExpiredStaysShut(i: Invite, us: seq<Update>, now: int)
    requires i.expiresAt <= now
    ensures UpdatedAll(i, us).expiresAt == i.expiresAt && !Claim(UpdatedAll(i, us), now).1
    decreases |us|
  {
    if us != [] {
      ExpiredStaysShut(Updated(i, us[0]), us[1..], now);
    }
  }

  // ---- Once a tenant is recorded

  datatype Update = UClaim(now: int) | URevert | UMark(org: int) | UConsume(org: int) | URevoke

  function Updated(i: Invite, u: Update): Invite {
    match u
    case UClaim(now) => Claim(i, now).0
    case URevert => RevertClaim(i)
    case UMark(org) => MarkConsumedOrg(i, org)
    case UConsume(org) => Consume(i, org)
    case URevoke => Revoke(i)
  }

  function UpdatedAll(i: Invite, us: seq<Update>): Invite
    decreases |us|
  {
    if us == [] then i else UpdatedAll(Updated(i, us[0]), us[1..])
  }

  /** Once a tenant is recorded on a claimed or revoked invite, no sequence of claims, reverts, recordings, consumptions
      and revocations ever makes it open again. */
  lemma {:induction false} RecordedStaysShut(i: Invite, us: seq<Update>, now: int)
    requires i.org.Some? && !i.status.Pending?
    ensures UpdatedAll(i, us).org.Some? && !UpdatedAll(i, us).status.Pending?
    ensures !Claim(UpdatedAll(i, us), now).1
    decreases |us|
  {
    if us != [] {
      RecordedStaysShut(Updated(i, us[0]), us[1..], now);
    }
  }

  // ---- The sign-up protocol: many workers, one invite

  datatype Phase =
    | Idle
    | Won                       // holds the claim, tenant not yet provisioned
    | Provisioned(org: int)     // tenant exists, not yet recorded on the invite
    | Recorded(org: int)
    | Lost                      // the claim failed; refused
    | GaveUp                    // provisioning failed and the claim was reverted

  /** The invite, each worker's phase, and every tenant ever provisioned and recorded through it, in order. */
  datatype World = World(invite: Invite, workers: map<int, Phase>, provisioned: seq<int>, recorded: seq<int>)

  datatype Move =
    | MClaim(w: int, now: int)
    | MProvision(w: int, org: int)
    | MFail(w: int)
    | MRecord(w: int)
    | MRevoke

  function PhaseOf(s: World, w: int): Phase { if w in s.workers then s.workers[w] else Idle }

  function Moved(s: World, w: int, phase: Phase): map<int, Phase> { s.workers[w := phase] }

  /** One atomic transaction of one worker, or the operator's revocation. A move out of turn changes nothing. */
  function Step(s: World, m: Move): World {
    match m
    case MClaim(w, now) =>
      if PhaseOf(s, w).Idle? then
        var (invite, won) := Claim(s.invite, now);
        s.(invite := invite, workers := Moved(s, w, if won then Won else Lost))
      else s
    case MProvision(w, org) =>
      if PhaseOf(s, w).Won? then
        s.(workers := Moved(s, w, Provisioned(org)), provisioned := s.provisioned + [org])
      else s
    case MFail(w) =>
      if PhaseOf(s, w).Won? then
        s.(invite := RevertClaim(s.invite), workers := Moved(s, w, GaveUp))
      else s
    case MRecord(w) =>
      if PhaseOf(s, w).Provisioned? then
        var org := PhaseOf(s, w).org;
        s.(invite := MarkConsumedOrg(s.invite, org), workers := Moved(s, w, Recorded(org)), recorded := s.recorded + [org])
      else s
    case MRevoke => s.(invite := Revoke(s.invite))
  }

  function Steps(s: World, ms: seq<Move>): World
    decreases |ms|
  {
    if ms == [] then s else Steps(Step(s, ms[0]), ms[1..])
  }

  predicate Holds(phase: Phase) { phase.Won? || phase.Provisioned? || phase.Recorded? }

  /** Worker w's phase agrees with the invite and with what was provisioned and recorded. */
  ghost predicate Fits(s: World, w: int) {
    match PhaseOf(s, w)
    case Won => s.provisioned == [] && !s.invite.status.Pending?
    case Provisioned(org) => s.provisioned == [org] && s.recorded == [] && !s.invite.status.Pending?
    case Recorded(org) =>
      s.provisioned == [org] && s.recorded == [org] && s.invite.org == Some(org) && !s.invite.status.Pending?
    case _ => true
  }

  /** Some worker holds the claim or the tenant it led to. */
  ghost predicate Held(s: World) { exists w :: Holds(PhaseOf(s, w)) }

  /** At most one worker holds, nobody while the invite is pending, and what was provisioned and recorded is the
      holder's. */
  ghost predicate Exclusive(s: World) {
    && (forall v, w :: Holds(PhaseOf(s, v)) && Holds(PhaseOf(s, w)) ==> v == w)
    && (forall w :: Fits(s, w))
    && (s.invite.org.Some? <==> s.recorded != [])
    && (s.provisioned == [] ==> s.recorded == [])
    && (s.provisioned != [] ==> Held(s))
  }

  lemma OthersStay(s: World, w: int, phase: Phase, after: World)
    requires after.workers == Moved(s, w, phase)
    ensures PhaseOf(after, w) == phase && forall v :: v != w ==> PhaseOf(after, v) == PhaseOf(s, v)
  {
  }

  lemma ClaimExclusive(s: World, w: int, now: int)
    requires Exclusive(s)
    ensures Exclusive(Step(s, MClaim(w, now)))
  {
    var after := Step(s, MClaim(w, now));
    if PhaseOf(s, w).Idle? {
      var won := Claim(s.invite, now).1;
      OthersStay(s, w, if won then Won else Lost, after);
      if s.provisioned != [] {
        var h :| Holds(PhaseOf(s, h));
        assert Fits(s, h);
        assert !won && Holds(PhaseOf(after, h));
      }
      forall v ensures Fits(after, v) {
        assert Fits(s, v);
      }
      if won {
        forall v | v != w ensures !Holds(PhaseOf(after, v)) { assert Fits(s, v); }
      }
    }
  }

  lemma HolderExclusive(s: World, m: Move)
    requires Exclusive(s) && !m.MClaim? && !m.MRevoke?
    ensures Exclusive(Step(s, m))
  {
    var after, w := Step(s, m), m.w;
    assert Fits(s, w);
    if after != s {
      OthersStay(s, w, after.workers[w], after);
      assert Holds(PhaseOf(s, w));
      forall v ensures Fits(after, v) {
        assert Fits(s, v);
      }
      if after.provisioned != [] {
        assert Holds(PhaseOf(after, w));
      }
    }
  }

  lemma StepExclusive(s: World, m: Move)
    requires Exclusive(s)
    ensures Exclusive(Step(s, m))
  {
    if m.MClaim? {
      ClaimExclusive(s, m.w, m.now);
    } else if m.MRevoke? {
      var after := Step(s, m);
      forall v ensures PhaseOf(after, v) == PhaseOf(s, v) && Fits(after, v) { assert Fits(s, v); }
      if s.provisioned != [] {
        var h :| Holds(PhaseOf(s, h));
        assert Holds(PhaseOf(after, h));
      }
    } else {
      HolderExclusive(s, m);
    }
  }

  lemma {:induction false} StepsExclusive(s: World, ms: seq<Move>)
    requires Exclusive(s)
    ensures Exclusive(Steps(s, ms))
    decreases |ms|
  {
    if ms != [] {
      StepExclusive(s, ms[0]);
      StepsExclusive(Step(s, ms[0]), ms[1..]);
    }
  }

  ghost predicate Fresh(s: World) {
    s.invite.status.Pending? && s.invite.org.None? && s.workers == map[] && s.provisioned == [] && s.recorded == []
  }

  /** One invite, one tenant: over every interleaving of any number of workers, at most one holds the claim at a time, at
      most one tenant is ever provisioned and at most one ever recorded, the recorded one is the provisioned one, and it
      is what the invite names. */
  lemma OneInviteOneTenant(start: World, ms: seq<Move>)
    requires Fresh(start)
    ensures var s := Steps(start, ms);
      && (forall v, w :: Holds(PhaseOf(s, v)) && Holds(PhaseOf(s, w)) ==> v == w)
      && |s.provisioned| <= 1 && s.recorded <= s.provisioned
      && (s.recorded != [] ==> s.invite.org == Some(s.recorded[0]) && forall now :: !Claim(s.invite, now).1)
  {
    forall w ensures Fits(start, w) { }
    StepsExclusive(start, ms);
    var s := Steps(start, ms);
    if s.provisioned != [] {
      var w :| Holds(PhaseOf(s, w));
      assert Fits(s, w);
    }
  }

  /** A failed provisioning gives the invite back: the next worker to claim in time wins. */
  lemma RetryAfterFailure(start: World, now: int, later: int, v: int, w: int)
    requires Fresh(start) && Open(start.invite, now) && later < start.invite.expiresAt && v != w
    ensures var s := Steps(start, [MClaim(v, now), MFail(v)]);
      s.invite == start.invite && PhaseOf(Step(s, MClaim(w, later)), w) == Won
  {
    TwoSteps(start, MClaim(v, now), MFail(v));
    assert PhaseOf(Steps(start, [MClaim(v, now), MFail(v)]), w).Idle?;
  }

  // ---- A revert outside the protocol

  /** A revert that no worker's turn calls for: the invite changes, the workers do not. */
  function StrayRevert(s: World): World { s.(invite := RevertClaim(s.invite)) }

  /** The revert's own guard does not know whose claim it undoes. A stray one is harmless exactly when the invite is not
      consumed or no worker stands between winning the claim and recording its tenant. */
  lemma StrayRevertHarmlessIff(s: World)
    requires Exclusive(s)
    ensures Exclusive(StrayRevert(s)) <==>
      (s.invite.status.Consumed? ==> forall w :: !PhaseOf(s, w).Won? && !PhaseOf(s, w).Provisioned?)
  {
    var after := StrayRevert(s);
    forall w ensures PhaseOf(after, w) == PhaseOf(s, w) && Fits(s, w) { }
    if s.provisioned != [] {
      var h :| Holds(PhaseOf(s, h));
      assert Fits(s, h) && Holds(PhaseOf(after, h));
    }
    if after.invite != s.invite {
      forall w ensures Fits(after, w) <==> !PhaseOf(s, w).Won? && !PhaseOf(s, w).Provisioned? {
        assert Fits(s, w);
      }
    }
  }

  /** Where it is not harmless, one invite yields two tenants: a stray revert between one worker's provisioning and its
      recording lets another worker claim and provision too. */
  lemma StrayRevertTwoTenants(start: World, now: int, v: int, w: int, org: int, other: int)
    requires Fresh(start) && Open(start.invite, now) && v != w
    ensures var s := Steps(start, [MClaim(v, now), MProvision(v, org)]);
      Steps(StrayRevert(s), [MClaim(w, now), MProvision(w, other)]).provisioned == [org, other]
  {
    TwoSteps(start, MClaim(v, now), MProvision(v, org));
    var s := StrayRevert(Steps(start, [MClaim(v, now), MProvision(v, org)]));
    TwoSteps(s, MClaim(w, now), MProvision(w, other));
    assert s.invite == start.invite && PhaseOf(s, w).Idle?;
  }

  lemma TwoSteps(s: World, m: Move, n: Move)
    ensures Steps(s, [m, n]) == Step(Step(s, m), n)
  {
    var moves := [m, n];
    assert moves[1..] == [n];
    assert Steps(Step(s, m), [n]) == Steps(Step(Step(s, m), n), [n][1..]);
  }
}
