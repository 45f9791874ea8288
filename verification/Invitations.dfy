/** The inviter's table of open invitations: what may be claimed, how often, and what a commit consumes. */
module Invitations {
  import opened Clocks
  import opened KeyLoops

  const NANOS_PER_SEC: nat := 1_000_000_000
  const MAX_TTL_NANOS: nat := 300 * NANOS_PER_SEC
  const MAX_ATTEMPTS: nat := 5
  const MAX_INVITATIONS: nat := 16

  datatype Manifest = Manifest(appId: string, schemaVersion: nat, adapters: set<string>)

  /** What a device shows of itself: what it may change - the names, its kind and role - and what two devices that
      pair must share. */
  datatype Metadata = Metadata(presentation: string, manifest: Manifest)

  datatype Invitation = Invitation(
    id: string, inviter: string, metadata: Metadata, expiresAt: nat, secret: string)

  datatype Slot = Slot(invitation: Invitation, attempts: nat, claimed: bool)

  type Slots = map<string, Slot>

  datatype Result<+T> = Ok(value: T) | Err

  /** Open slots hold their own invitation, within the attempt and size limits. */
  ghost predicate SlotsOk(slots: Slots) {
    && |slots| <= MAX_INVITATIONS
    && forall id | id in slots :: slots[id].invitation.id == id && slots[id].attempts <= MAX_ATTEMPTS
  }

  function Unexpired(slots: Slots, now: nat): (r: Slots)
    ensures r.Keys <= slots.Keys
    ensures forall id | id in r :: r[id] == slots[id] && now < r[id].invitation.expiresAt
  {
    map id | id in slots && now < slots[id].invitation.expiresAt :: slots[id]
  }

  /** The expiry second, saturating at 64 bits; the lifetime is a duration in nanoseconds. */
  function Expiry(now: nat, ttl: nat): nat {
    if now + ttl / NANOS_PER_SEC > U64_MAX then U64_MAX else now + ttl / NANOS_PER_SEC
  }

  function Create(slots: Slots, invitation: Invitation, ttl: nat, now: nat): Result<Slots> {
    if ttl == 0 || ttl > MAX_TTL_NANOS then Err
    else
      var open := Unexpired(slots, now);
      if |open| >= MAX_INVITATIONS then Err else Ok(open[invitation.id := Slot(invitation, 0, false)])
  }

  predicate IsOpen(slots: Slots, id: string, now: nat) {
    id in slots && slots[id].attempts < MAX_ATTEMPTS && !slots[id].claimed && now < slots[id].invitation.expiresAt
  }

  function Claim(slots: Slots, id: string, now: nat): Result<Slots> {
    if IsOpen(slots, id, now)
    then Ok(slots[id := slots[id].(attempts := slots[id].attempts + 1, claimed := true)])
    else Err
  }

  function Release(slots: Slots, id: string): Slots {
    if id in slots then slots[id := slots[id].(claimed := false)] else slots
  }

  /** Whether the durable approval callback may run. */
  predicate MayCommit(slots: Slots, id: string, now: nat) {
    id in slots && slots[id].claimed && now < slots[id].invitation.expiresAt
  }

  lemma SubmapSize(a: Slots, b: Slots)
    requires a.Keys <= b.Keys
    ensures |a| <= |b|
  {
    SubsetSize(a.Keys, b.Keys);
    assert |a.Keys| == |a| && |b.Keys| == |b|;
  }

  lemma CreateOk(slots: Slots, invitation: Invitation, ttl: nat, now: nat)
    requires SlotsOk(slots) && Create(slots, invitation, ttl, now).Ok?
    ensures SlotsOk(Create(slots, invitation, ttl, now).value)
  {
    var open := Unexpired(slots, now);
    assert |open[invitation.id := Slot(invitation, 0, false)].Keys| <= |open.Keys| + 1 by {
      assert open[invitation.id := Slot(invitation, 0, false)].Keys == open.Keys + {invitation.id};
    }
  }

  /** Claiming and releasing touch the one slot and keep the limits. */
  lemma ClaimOk(slots: Slots, id: string, now: nat)
    requires SlotsOk(slots) && Claim(slots, id, now).Ok?
    ensures var after := Claim(slots, id, now).value;
            && SlotsOk(after) && after.Keys == slots.Keys && id in slots && !slots[id].claimed
            && after[id] == slots[id].(attempts := slots[id].attempts + 1, claimed := true)
            && forall i | i in after && i != id :: after[i] == slots[i]
  {
    var after := Claim(slots, id, now).value;
    assert after.Keys == slots.Keys;
    SubmapSize(after, slots);
  }

  lemma ReleaseOk(slots: Slots, id: string)
    requires SlotsOk(slots)
    ensures var after := Release(slots, id);
            && SlotsOk(after) && after.Keys == slots.Keys
            && (id in slots ==> after[id] == slots[id].(claimed := false))
            && forall i | i in after && i != id :: after[i] == slots[i]
  {
    var after := Release(slots, id);
    assert after.Keys == slots.Keys;
    SubmapSize(after, slots);
  }

  class PairingManager {
    var invitations: Slots

    ghost predicate Valid()
      reads this
    {
      SlotsOk(invitations)
    }

    constructor ()
      ensures Valid() && invitations == map[]
    {
      invitations := map[];
    }

    /** The time is read twice: `drawn` for the expiry and `now` under the lock. `wellFormed` is what the checks of
        the invitation's own fields answer. */
    method CreateInvitation(
      id: string, inviter: string, metadata: Metadata, secret: string, ttl: nat, wellFormed: bool, drawn: nat, now: nat)
      returns (r: Result<Invitation>)
      requires Valid()
      modifies this
      ensures Valid()
      ensures !wellFormed || ttl == 0 || ttl > MAX_TTL_NANOS ==> r == Err && invitations == old(invitations)
      ensures wellFormed ==>
                var invitation := Invitation(id, inviter, metadata, Expiry(drawn, ttl), secret);
                match Create(old(invitations), invitation, ttl, now)
                case Ok(slots) => && invitations == slots && r == Ok(invitation)
                                  && forall t: nat :: IsOpen(invitations, id, t) <==> t < Expiry(drawn, ttl)
                case Err => r == Err && (0 < ttl <= MAX_TTL_NANOS ==> invitations == Unexpired(old(invitations), now))
    {
      if ttl == 0 || ttl > MAX_TTL_NANOS || !wellFormed {
        return Err;
      }
      var invitation := Invitation(id, inviter, metadata, Expiry(drawn, ttl), secret);
      SubmapSize(Unexpired(invitations, now), invitations);
      invitations := Unexpired(invitations, now);
      if |invitations| >= MAX_INVITATIONS {
        return Err;
      }
      CreateOk(old(invitations), invitation, ttl, now);
      invitations := invitations[id := Slot(invitation, 0, false)];
      return Ok(invitation);
    }

    method Revoke(id: string)
      requires Valid()
      modifies this
      ensures Valid() && invitations == old(invitations) - {id}
    {
      SubmapSize(invitations - {id}, invitations);
      invitations := invitations - {id};
    }

    method Close()
      modifies this
      ensures Valid() && invitations == map[]
    {
      invitations := map[];
    }

    method ClaimInvitation(id: string, now: nat) returns (r: Result<Invitation>)
      requires Valid()
      modifies this
      ensures Valid()
      ensures match Claim(old(invitations), id, now)
              case Ok(slots) => invitations == slots && r == Ok(old(invitations)[id].invitation)
              case Err => invitations == old(invitations) && r == Err
    {
      if id !in invitations {
        return Err;
      }
      var e := invitations[id];
      if e.claimed || e.attempts >= MAX_ATTEMPTS || e.invitation.expiresAt <= now {
        return Err;
      }
      assert invitations.Keys + {id} == invitations.Keys;
      invitations := invitations[id := Slot(e.invitation, e.attempts + 1, true)];
      return Ok(e.invitation);
    }

    method ReleaseInvitation(id: string)
      requires Valid()
      modifies this
      ensures Valid() && invitations == Release(old(invitations), id)
    {
      if id in invitations {
        assert invitations.Keys + {id} == invitations.Keys;
        invitations := invitations[id := invitations[id].(claimed := false)];
      }
    }

    /** `approved` is what the durable callback answers; it is consulted only when the commit may run. */
    method Commit(id: string, now: nat, approved: bool) returns (committed: bool)
      requires Valid()
      modifies this
      ensures Valid()
      ensures committed == (MayCommit(old(invitations), id, now) && approved)
      ensures invitations == if committed then old(invitations) - {id} else old(invitations)
    {
      if id !in invitations || !invitations[id].claimed || invitations[id].invitation.expiresAt <= now || !approved {
        return false;
      }
      SubmapSize(invitations - {id}, invitations);
      invitations := invitations - {id};
      return true;
    }
  }
}
