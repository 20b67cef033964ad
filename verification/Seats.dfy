/**
 * Login seats: members, invitations and their conversion (internal/database/bun/store.go,
 * internal/api/handlers/invitations.go and members.go).
 */
module Seats {
  import opened Types

  datatype Role = OWNER | ADMIN | MEMBER | VIEWER
  datatype InvitationStatus = PENDING | ACCEPTED | REVOKED | EXPIRED

  datatype Member = Member(org: OrgId, role: Role)

  datatype Invitation = Invitation(
    org: OrgId, email: string, role: Role, token: string, status: InvitationStatus, expiresAt: int)

  /** A user belongs to at most one organization: members are keyed by user. */
  datatype Tables = Tables(members: map<UserId, Member>, invitations: map<string, Invitation>)

  const INVITATION_LIFETIME: int := 7 * 24 * 3600 * SECOND

  // ---------- Counting ----------

  /** Everyone but the owner holds a seat. */
  function Holders(members: map<UserId, Member>, org: OrgId): set<UserId> {
    set u | u in members && members[u].org == org && members[u].role != OWNER
  }

  predicate Live(inv: Invitation, now: int) { inv.status == PENDING && inv.expiresAt > now }

  function Pending(invitations: map<string, Invitation>, org: OrgId, now: int): set<string> {
    set i | i in invitations && invitations[i].org == org && Live(invitations[i], now)
  }

  function SeatsUsed(t: Tables, org: OrgId, now: int): nat {
    |Holders(t.members, org)| + |Pending(t.invitations, org, now)|
  }

  // ---------- Steps ----------

  datatype Outcome = Done | NotFound | SeatLimit | Conflict

  /** The checks of AcceptInvitation, in order. A cap of `None` is an unlimited plan. */
  function AcceptOutcome(t: Tables, id: string, user: UserId, cap: Option<nat>, now: int): Outcome {
    if id !in t.invitations || !Live(t.invitations[id], now) then NotFound
    else
      var inv := t.invitations[id];
      var others := |Holders(t.members, inv.org)| + |Pending(t.invitations, inv.org, now) - {id}|;
      if cap.Some? && others >= cap.value then SeatLimit
      else if user in t.members then Conflict
      else Done
  }

  function SetStatus(t: Tables, id: string, status: InvitationStatus): Tables
    requires id in t.invitations
  {
    t.(invitations := t.invitations[id := t.invitations[id].(status := status)])
  }

  function Accept(t: Tables, id: string, user: UserId, cap: Option<nat>, now: int): Tables {
    if AcceptOutcome(t, id, user, cap, now) != Done then t else
    var inv := t.invitations[id];
    SetStatus(t, id, ACCEPTED).(members := t.members[user := Member(inv.org, inv.role)])
  }

  /** RevokeInvitation and ExpireInvitation only touch a pending row. */
  function Close(t: Tables, id: string, status: InvitationStatus): Tables {
    if id in t.invitations && t.invitations[id].status == PENDING then SetStatus(t, id, status) else t
  }

  datatype Event =
    | Found(user: UserId, org: OrgId)                                   // a new organization and its owner
    | Invite(id: string, inv: Invitation)                               // the insert; its quota check may be stale
    | Accepting(id: string, user: UserId, now: int)
    | Revoke(id: string)
    | Expire(id: string)
    | Leave(org: OrgId, user: UserId)
    | SetRole(org: OrgId, user: UserId, role: Role)

  /** What the database constraints and the request validation guarantee. */
  predicate Enabled(t: Tables, e: Event) {
    match e
    case Found(user, org) => user !in t.members
    case Invite(id, inv) => id !in t.invitations && inv.status == PENDING && inv.role != OWNER &&
                            forall i :: i in t.invitations ==> t.invitations[i].token != inv.token
    case SetRole(_, _, role) => role != OWNER
    case _ => true
  }

  function Step(t: Tables, e: Event, cap: OrgId -> Option<nat>): Tables {
    match e
    case Found(user, org) => t.(members := t.members[user := Member(org, OWNER)])
    case Invite(id, inv) => t.(invitations := t.invitations[id := inv])
    case Accepting(id, user, now) =>
      if id in t.invitations then Accept(t, id, user, cap(t.invitations[id].org), now) else t
    case Revoke(id) => Close(t, id, REVOKED)
    case Expire(id) => Close(t, id, EXPIRED)
    case Leave(org, user) =>
      if user in t.members && t.members[user].org == org && t.members[user].role != OWNER
      then t.(members := t.members - {user}) else t
    case SetRole(org, user, role) =>
      if user in t.members && t.members[user].org == org && t.members[user].role != OWNER
      then t.(members := t.members[user := Member(org, role)]) else t
  }

  function Run(t: Tables, events: seq<Event>, cap: OrgId -> Option<nat>): Tables {
    if events == [] then t else Step(Run(t, events[..|events| - 1], cap), events[|events| - 1], cap)
  }

  predicate Legal(t: Tables, events: seq<Event>, cap: OrgId -> Option<nat>) {
    forall i :: 0 <= i < |events| ==> Enabled(Run(t, events[..i], cap), events[i])
  }

  // ---------- The cap ----------

  ghost predicate WithinCap(t: Tables, cap: OrgId -> Option<nat>) {
    && (forall org :: cap(org).Some? ==> |Holders(t.members, org)| <= cap(org).value)
    && (forall i :: i in t.invitations ==> t.invitations[i].role != OWNER)
  }

  lemma FewerHolders(members: map<UserId, Member>, members': map<UserId, Member>, org: OrgId)
    requires Holders(members', org) <= Holders(members, org)
    ensures |Holders(members', org)| <= |Holders(members, org)|
  {
    SubsetSize(Holders(members', org), Holders(members, org));
  }

  lemma JoinHolders(members: map<UserId, Member>, user: UserId, org: OrgId, role: Role, o: OrgId)
    requires user !in members && role != OWNER
    ensures Holders(members[user := Member(org, role)], o) == Holders(members, o) + if o == org then {user} else {}
  {
  }

  lemma AcceptedPending(t: Tables, id: string, o: OrgId, now: int)
    requires id in t.invitations && Live(t.invitations[id], now)
    ensures Pending(SetStatus(t, id, ACCEPTED).invitations, o, now) ==
            Pending(t.invitations, o, now) - if o == t.invitations[id].org then {id} else {}
    ensures o == t.invitations[id].org ==> id in Pending(t.invitations, o, now)
    ensures o != t.invitations[id].org ==> id !in Pending(t.invitations, o, now)
  {
  }

  /** A successful accept turns one pending seat into a held one, and touches no other organization. */
  lemma AcceptMoves(t: Tables, id: string, user: UserId, cap: Option<nat>, now: int, o: OrgId)
    requires AcceptOutcome(t, id, user, cap, now) == Done && t.invitations[id].role != OWNER
    ensures var t', org := Accept(t, id, user, cap, now), t.invitations[id].org;
      && Holders(t'.members, o) == Holders(t.members, o) + (if o == org then {user} else {})
      && Pending(t'.invitations, o, now) == Pending(t.invitations, o, now) - (if o == org then {id} else {})
      && user !in Holders(t.members, o) && (o == org ==> id in Pending(t.invitations, o, now))
  {
    JoinHolders(t.members, user, t.invitations[id].org, t.invitations[id].role, o);
    AcceptedPending(t, id, o, now);
  }

  /** Each accept leaves the seats in use unchanged, in every organization. */
  lemma AcceptConservesSeats(t: Tables, id: string, user: UserId, cap: Option<nat>, now: int, org: OrgId)
    requires id in t.invitations ==> t.invitations[id].role != OWNER
    ensures SeatsUsed(Accept(t, id, user, cap, now), org, now) == SeatsUsed(t, org, now)
  {
    if AcceptOutcome(t, id, user, cap, now) == Done {
      AcceptMoves(t, id, user, cap, now, org);
    }
  }

  /** A live invitation is turned away for want of seats exactly when the organization is over its cap. */
  lemma RefusedExactlyWhenOverbooked(t: Tables, id: string, user: UserId, cap: Option<nat>, now: int)
    requires id in t.invitations && Live(t.invitations[id], now)
    ensures AcceptOutcome(t, id, user, cap, now) == SeatLimit <==>
            cap.Some? && SeatsUsed(t, t.invitations[id].org, now) > cap.value
  {
    var pending := Pending(t.invitations, t.invitations[id].org, now);
    assert id in pending;
  }

  /** Everyone in the organization who is not its owner. */
  ghost predicate AreHolders(holders: set<UserId>, t: Tables, org: OrgId) {
    forall u :: u in holders <==> u in t.members && t.members[u].org == org && t.members[u].role != OWNER
  }

  /** The organization's pending invitations that have not lapsed, other than one. */
  ghost predicate AreOthers(others: set<string>, t: Tables, org: OrgId, id: string, now: int) {
    forall i :: i in others <==> i != id && i in t.invitations && t.invitations[i].org == org
                                 && t.invitations[i].status == PENDING && t.invitations[i].expiresAt > now
  }

  /** The accept transaction said over the tables: when it is refused, and what it writes. */
  lemma AcceptExact(t: Tables, id: string, user: UserId, cap: Option<nat>, now: int,
                    holders: set<UserId>, others: set<string>)
    requires id in t.invitations && AreHolders(holders, t, t.invitations[id].org)
    requires AreOthers(others, t, t.invitations[id].org, id, now)
    ensures var inv, t' := t.invitations[id], Accept(t, id, user, cap, now);
      AcceptOutcome(t, id, user, cap, now) ==
      if inv.status != PENDING || inv.expiresAt <= now then NotFound
      else if cap.Some? && |holders| + |others| >= cap.value then SeatLimit
      else if user in t.members then Conflict
      else Done
    ensures var inv, t' := t.invitations[id], Accept(t, id, user, cap, now);
      if AcceptOutcome(t, id, user, cap, now) == Done
      then t' == Tables(t.members[user := Member(inv.org, inv.role)], t.invitations[id := inv.(status := ACCEPTED)])
      else t' == t
  {
    var org := t.invitations[id].org;
    assert holders == Holders(t.members, org);
    assert others == Pending(t.invitations, org, now) - {id};
  }

  lemma StepWithinCap(t: Tables, e: Event, cap: OrgId -> Option<nat>)
    requires WithinCap(t, cap) && Enabled(t, e)
    ensures WithinCap(Step(t, e, cap), cap)
  {
    var t' := Step(t, e, cap);
    if e.Accepting? && e.id in t.invitations {
      var org := t.invitations[e.id].org;
      if AcceptOutcome(t, e.id, e.user, cap(org), e.now) == Done {
        forall o ensures |Holders(t'.members, o)| == |Holders(t.members, o)| + if o == org then 1 else 0 {
          AcceptMoves(t, e.id, e.user, cap(org), e.now, o);
        }
      }
    } else {
      forall org ensures |Holders(t'.members, org)| <= |Holders(t.members, org)| {
        FewerHolders(t.members, t'.members, org);
      }
    }
  }

  /** For a constant cap, members never exceed it: any interleaving, stale quota checks included. */
  lemma {:induction false} MembersWithinCap(t: Tables, events: seq<Event>, cap: OrgId -> Option<nat>)
    requires WithinCap(t, cap) && Legal(t, events, cap)
    ensures WithinCap(Run(t, events, cap), cap)
  {
    if events != [] {
      var init := events[..|events| - 1];
      assert forall i :: 0 <= i < |init| ==> init[..i] == events[..i];
      MembersWithinCap(t, init, cap);
      StepWithinCap(Run(t, init, cap), events[|events| - 1], cap);
    }
  }

  // ---------- Invitations close once ----------

  lemma StepKeepsClosed(t: Tables, e: Event, cap: OrgId -> Option<nat>, id: string)
    requires Enabled(t, e) && id in t.invitations
    ensures id in Step(t, e, cap).invitations
    ensures t.invitations[id].status != PENDING ==> Step(t, e, cap).invitations[id] == t.invitations[id]
    ensures Step(t, e, cap).invitations[id].(status := PENDING) == t.invitations[id].(status := PENDING)
  {
  }

  /** Once it left PENDING an invitation never changes again, whatever happens after `i`. */
  lemma {:induction false} ClosedForGood(t: Tables, events: seq<Event>, cap: OrgId -> Option<nat>, i: nat, id: string)
    requires Legal(t, events, cap) && i <= |events|
    requires id in Run(t, events[..i], cap).invitations && Run(t, events[..i], cap).invitations[id].status != PENDING
    ensures id in Run(t, events, cap).invitations
    ensures Run(t, events, cap).invitations[id] == Run(t, events[..i], cap).invitations[id]
    decreases |events|
  {
    if i == |events| {
      assert events[..i] == events;
    } else {
      var init := events[..|events| - 1];
      assert forall k :: 0 <= k <= |init| ==> init[..k] == events[..k];
      ClosedForGood(t, init, cap, i, id);
      StepKeepsClosed(Run(t, init, cap), events[|events| - 1], cap, id);
    }
  }

  // ---------- Checked invitations keep their promise ----------

  /** An invitation inserted while its quota check still held. */
  predicate Checked(t: Tables, e: Event, cap: OrgId -> Option<nat>, now: int) {
    e.Invite? && cap(e.inv.org).Some? ==> SeatsUsed(t, e.inv.org, now) < cap(e.inv.org).value
  }

  ghost predicate Booked(t: Tables, cap: OrgId -> Option<nat>, now: int) {
    && (forall org :: cap(org).Some? ==> SeatsUsed(t, org, now) <= cap(org).value)
    && (forall i :: i in t.invitations ==> t.invitations[i].role != OWNER)
  }

  lemma SeatsOnlyLapse(t: Tables, org: OrgId, before: int, now: int)
    requires before <= now
    ensures SeatsUsed(t, org, now) <= SeatsUsed(t, org, before)
  {
    SubsetSize(Pending(t.invitations, org, now), Pending(t.invitations, org, before));
  }

  lemma InviteBooks(t: Tables, id: string, inv: Invitation, org: OrgId, now: int)
    requires id !in t.invitations
    ensures var t' := t.(invitations := t.invitations[id := inv]);
      SeatsUsed(t', org, now) <= SeatsUsed(t, org, now) + if org == inv.org then 1 else 0
  {
    var invitations' := t.invitations[id := inv];
    var pending, pending' := Pending(t.invitations, org, now), Pending(invitations', org, now);
    if org == inv.org {
      assert pending' <= pending + {id};
      SubsetSize(pending', pending + {id});
    } else {
      assert pending' == pending;
    }
  }

  lemma StepNeverGrows(t: Tables, e: Event, cap: OrgId -> Option<nat>, org: OrgId, now: int)
    requires Enabled(t, e) && !e.Accepting? && !e.Invite?
    ensures SeatsUsed(Step(t, e, cap), org, now) <= SeatsUsed(t, org, now)
  {
    var t' := Step(t, e, cap);
    FewerHolders(t.members, t'.members, org);
    SubsetSize(Pending(t'.invitations, org, now), Pending(t.invitations, org, now));
  }

  lemma StepKeepsBooked(t: Tables, e: Event, cap: OrgId -> Option<nat>, now: int)
    requires Booked(t, cap, now) && Enabled(t, e) && Checked(t, e, cap, now) && (e.Accepting? ==> e.now == now)
    ensures Booked(Step(t, e, cap), cap, now)
  {
    var t' := Step(t, e, cap);
    forall org | cap(org).Some? ensures SeatsUsed(t', org, now) <= cap(org).value {
      if e.Invite? {
        InviteBooks(t, e.id, e.inv, org, now);
      } else if e.Accepting? {
        if e.id in t.invitations { AcceptConservesSeats(t, e.id, e.user, cap(t.invitations[e.id].org), now, org); }
      } else {
        StepNeverGrows(t, e, cap, org, now);
      }
    }
  }

  /** Events with their instants. */
  datatype Timed = Timed(event: Event, now: int)

  function RunTimed(t: Tables, es: seq<Timed>, cap: OrgId -> Option<nat>): Tables {
    if es == [] then t else Step(RunTimed(t, es[..|es| - 1], cap), es[|es| - 1].event, cap)
  }

  /** The clock goes forward from `start`, and every invitation is inserted while its quota check holds. */
  predicate Orderly(t: Tables, es: seq<Timed>, cap: OrgId -> Option<nat>, start: int) {
    es == [] ||
    var init, last := es[..|es| - 1], es[|es| - 1];
    && Orderly(t, init, cap, start) && End(init, start) <= last.now
    && Enabled(RunTimed(t, init, cap), last.event) && Checked(RunTimed(t, init, cap), last.event, cap, last.now)
    && (last.event.Accepting? ==> last.event.now == last.now)
  }

  function End(es: seq<Timed>, start: int): int { if es == [] then start else es[|es| - 1].now }

  lemma BookedLater(t: Tables, cap: OrgId -> Option<nat>, before: int, now: int)
    requires Booked(t, cap, before) && before <= now
    ensures Booked(t, cap, now)
  {
    forall org ensures SeatsUsed(t, org, now) <= SeatsUsed(t, org, before) {
      SeatsOnlyLapse(t, org, before, now);
    }
  }

  /** Invitations that each passed their check never outgrow the seats, however accepts and departures follow. */
  lemma {:induction false} CheckedInvitationsFit(t: Tables, es: seq<Timed>, cap: OrgId -> Option<nat>, start: int)
    requires Booked(t, cap, start) && Orderly(t, es, cap, start)
    ensures Booked(RunTimed(t, es, cap), cap, End(es, start))
  {
    if es != [] {
      var init, last := es[..|es| - 1], es[|es| - 1];
      CheckedInvitationsFit(t, init, cap, start);
      var before := RunTimed(t, init, cap);
      BookedLater(before, cap, End(init, start), last.now);
      StepKeepsBooked(before, last.event, cap, last.now);
    }
  }

  /** So a live invitation that passed its check is never refused for want of a seat. */
  lemma PromisedSeatsHold(t: Tables, es: seq<Timed>, cap: OrgId -> Option<nat>, start: int, now: int,
                          id: string, user: UserId)
    requires Booked(t, cap, start) && Orderly(t, es, cap, start) && End(es, start) <= now
    requires id in RunTimed(t, es, cap).invitations
    ensures var end := RunTimed(t, es, cap);
      AcceptOutcome(end, id, user, cap(end.invitations[id].org), now) != SeatLimit
  {
    var end := RunTimed(t, es, cap);
    CheckedInvitationsFit(t, es, cap, start);
    BookedLater(end, cap, End(es, start), now);
    if Live(end.invitations[id], now) {
      RefusedExactlyWhenOverbooked(end, id, user, cap(end.invitations[id].org), now);
    }
  }

  // ---------- The store and the invitation handler ----------

  /** A pending invitation of the organization for this (normalized) address. */
  predicate Blocks(inv: Invitation, org: OrgId, email: string) {
    inv.org == org && inv.status == PENDING && inv.email == email
  }

  /** Every lapsed pending invitation in `ids` for the address is marked EXPIRED. */
  function Superseded(invitations: map<string, Invitation>, ids: set<string>, org: OrgId, email: string)
    : map<string, Invitation>
  {
    map i | i in invitations ::
      if i in ids && Blocks(invitations[i], org, email) then invitations[i].(status := EXPIRED) else invitations[i]
  }

  class SeatStore {
    var members: map<UserId, Member>
    var invitations: map<string, Invitation>

    ghost function View(): Tables
      reads this
    {
      Tables(members, invitations)
    }

    /** The unique index on tokens. */
    ghost predicate UniqueTokens()
      reads this
    {
      forall i, j :: i in invitations && j in invitations && invitations[i].token == invitations[j].token ==> i == j
    }

    predicate Matches(i: string, token: string, now: int)
      reads this
    {
      i in invitations && invitations[i].token == token && Live(invitations[i], now)
    }

    method FindLive(token: string, now: int) returns (found: Option<string>)
      ensures found.Some? ==> Matches(found.value, token, now)
      ensures found.None? ==> forall i :: i in invitations ==> !Matches(i, token, now)
    {
      found := None;
      var rest := invitations.Keys;
      while rest != {} && found.None?
        invariant rest <= invitations.Keys
        invariant found.Some? ==> Matches(found.value, token, now)
        invariant found.None? ==> forall i :: i in invitations && i !in rest ==> !Matches(i, token, now)
        decreases |rest|
      {
        var i :| i in rest;
        if invitations[i].token == token && Live(invitations[i], now) { found := Some(i); }
        rest := rest - {i};
      }
    }

    /** AcceptInvitation: one transaction under the locks of the invitation and the organization. */
    method AcceptInvitation(token: string, user: UserId, cap: Option<nat>, now: int) returns (outcome: Outcome)
      requires UniqueTokens()
      modifies this
      ensures forall id :: id in old(invitations) && old(invitations)[id].token == token ==>
        View() == Accept(old(View()), id, user, cap, now) && outcome == AcceptOutcome(old(View()), id, user, cap, now)
      ensures (forall id :: id in old(invitations) ==> old(invitations)[id].token != token) ==>
        View() == old(View()) && outcome == NotFound
    {
      var found := FindLive(token, now);
      if found.None? { return NotFound; }
      var id := found.value;
      var inv := invitations[id];
      if cap.Some? {
        var held := set u | u in members && members[u].org == inv.org && members[u].role != OWNER;
        var pending := set i | i in invitations && invitations[i].org == inv.org && invitations[i].status == PENDING
                               && invitations[i].expiresAt > now && i != id;
        assert held == Holders(members, inv.org) && pending == Pending(invitations, inv.org, now) - {id};
        if |held| + |pending| >= cap.value { return SeatLimit; }
      }
      if user in members { return Conflict; }
      members := members[user := Member(inv.org, inv.role)];
      invitations := invitations[id := inv.(status := ACCEPTED)];
      return Done;
    }

    method RevokeInvitation(id: string) returns (outcome: Outcome)
      modifies this`invitations
      ensures View() == Close(old(View()), id, REVOKED) && (outcome == NotFound <==> id !in old(invitations))
      ensures invitations == if id in old(invitations) && old(invitations)[id].status == PENDING
                             then old(invitations)[id := old(invitations)[id].(status := REVOKED)] else old(invitations)
    {
      if id !in invitations { return NotFound; }
      if invitations[id].status == PENDING {
        invitations := invitations[id := invitations[id].(status := REVOKED)];
      }
      return Done;
    }

    method ExpireInvitation(id: string)
      modifies this`invitations
      ensures View() == Close(old(View()), id, EXPIRED)
      ensures invitations == if id in old(invitations) && old(invitations)[id].status == PENDING
                             then old(invitations)[id := old(invitations)[id].(status := EXPIRED)] else old(invitations)
    {
      if id in invitations && invitations[id].status == PENDING {
        invitations := invitations[id := invitations[id].(status := EXPIRED)];
      }
    }

    /** The handler's scan for duplicates, newest first: lapsed ones expire until a live one stops it. */
    method SupersedeLapsed(listed: seq<string>, org: OrgId, email: string, now: int)
      returns (blocked: bool, ghost seen: set<string>)
      requires forall i :: i in listed ==> i in invitations
      modifies this`invitations
      ensures invitations == Superseded(old(invitations), seen, org, email)
      ensures forall i :: i in seen ==> i in listed && !Live(old(invitations)[i], now)
      ensures blocked <==> exists i ::
        i in listed && Blocks(old(invitations)[i], org, email) && Live(old(invitations)[i], now)
      ensures !blocked ==> forall i :: i in listed && Blocks(old(invitations)[i], org, email) ==> i in seen
    {
      seen := {};
      var rows := invitations;                   // the rows as they were listed
      for n := 0 to |listed|
        invariant invitations == Superseded(old(invitations), seen, org, email)
        invariant forall i :: i in seen ==> i in listed && !Live(old(invitations)[i], now)
        invariant forall k :: 0 <= k < n && Blocks(old(invitations)[listed[k]], org, email) ==> listed[k] in seen
      {
        var i := listed[n];
        assert i in listed;
        var inv := rows[i];
        if inv.status != PENDING || inv.org != org || inv.email != email { continue; }
        if now < inv.expiresAt {
          return true, seen;
        }
        ExpireInvitation(i);
        seen := seen + {i};
      }
      return false, seen;
    }

    /**
     * The invitation handler run without interference: supersede, check the quota, insert. A listing
     * that fails is ignored, so duplicates are then neither found nor superseded.
     */
    method CreateInvitation(id: string, listing: Option<seq<string>>, org: OrgId, email: string, role: Role,
                            token: string, cap: Option<nat>, now: int)
      returns (outcome: Outcome)
      requires id !in invitations && role != OWNER
      requires listing.Some? ==> forall i :: i in listing.value <==> i in invitations && invitations[i].org == org
      modifies this`invitations
      ensures outcome == Conflict <==> listing.Some? && exists i ::
        && i in old(invitations) && old(invitations)[i].org == org && old(invitations)[i].email == email
        && old(invitations)[i].status == PENDING && old(invitations)[i].expiresAt > now
      ensures outcome == SeatLimit ==> cap.Some? && SeatsUsed(old(View()), org, now) >= cap.value
      ensures outcome == Done && cap.Some? ==> SeatsUsed(old(View()), org, now) < cap.value
      ensures outcome != NotFound
      ensures outcome == Done ==>
        id in invitations && invitations[id] == Invitation(org, email, role, token, PENDING, now + 604_800_000)
      ensures outcome == Done && listing.Some? ==>
        forall i | i in invitations && invitations[i].org == org && invitations[i].email == email
                   && invitations[i].status == PENDING :: i == id
      ensures old(invitations).Keys <= invitations.Keys
      ensures forall i | i in old(invitations) && (listing.None? || !Blocks(old(invitations)[i], org, email)) ::
        invitations[i] == old(invitations)[i]
    {
      var listed := if listing.Some? then listing.value else [];
      var blocked, seen := SupersedeLapsed(listed, org, email, now);
      if blocked { return Conflict; }
      ghost var superseded := invitations;
      assert Pending(superseded, org, now) == Pending(old(invitations), org, now);
      if cap.Some? {
        var held := |set u | u in members && members[u].org == org && members[u].role != OWNER|;
        var pending := |set i | i in invitations && invitations[i].org == org && Live(invitations[i], now)|;
        assert held == |Holders(members, org)| && pending == |Pending(superseded, org, now)|;
        if held + pending >= cap.value { return SeatLimit; }
      }
      invitations := invitations[id := Invitation(org, email, role, token, PENDING, now + INVITATION_LIFETIME)];
      return Done;
    }

    method RemoveMember(org: OrgId, user: UserId) returns (outcome: Outcome)
      modifies this`members
      ensures View() == Step(old(View()), Leave(org, user), _ => None)
      ensures members == if outcome == Done then old(members) - {user} else old(members)
      ensures outcome == if user !in old(members) || old(members)[user].org != org then NotFound
                         else if old(members)[user].role == OWNER then Conflict else Done
    {
      if user !in members || members[user].org != org { return NotFound; }
      if members[user].role == OWNER { return Conflict; }
      members := members - {user};
      return Done;
    }

    method UpdateMemberRole(org: OrgId, user: UserId, role: Role) returns (outcome: Outcome)
      requires role != OWNER
      modifies this`members
      ensures View() == Step(old(View()), SetRole(org, user, role), _ => None)
      ensures members == if outcome == Done then old(members)[user := Member(org, role)] else old(members)
      ensures outcome == if user !in old(members) || old(members)[user].org != org then NotFound
                         else if old(members)[user].role == OWNER then Conflict else Done
    {
      if user !in members || members[user].org != org { return NotFound; }
      if members[user].role == OWNER { return Conflict; }
      members := members[user := members[user].(role := role)];
      return Done;
    }
  }
}
