/**
 * A row of the `vendors` table and the changes the vendor handlers make to
 * one row: the status lifecycle (active, pending deactivation, deactivated,
 * pending activation) and the profile edit.
 */
module VendorRecords {
  import opened Wrappers

  datatype Status = Active | PendingDeactivation | Deactivated | PendingActivation

  /** The eight editable profile columns. */
  datatype Profile = Profile(
    name: string,
    companyName: string,
    companyType: string,
    gstin: string,
    contactNumber: string,
    email: string,
    address: string,
    pincode: string)

  /** A row of `vendors`; the password column holds a digest, never the plaintext. */
  datatype Vendor = Vendor(
    profile: Profile,
    passwordHash: string,
    createdAt: int,
    isActive: bool,
    status: Status,
    requestedBy: Option<int>,
    requestedAt: Option<int>)

  /** The columns a mutating handler returns and broadcasts (its `RETURNING` list). */
  datatype Snapshot = Snapshot(
    id: int,
    name: string,
    companyName: string,
    email: string,
    companyType: string,
    isActive: bool,
    status: Status)

  /** The columns the vendor listing selects: everything but the password and the requester. */
  datatype Listing = Listing(id: int, profile: Profile, createdAt: int, isActive: bool, status: Status)

  function SnapshotOf(id: int, v: Vendor): Snapshot
  {
    Snapshot(id, v.profile.name, v.profile.companyName, v.profile.email, v.profile.companyType,
             v.isActive, v.status)
  }

  function ListingOf(id: int, v: Vendor): Listing
  {
    Listing(id, v.profile, v.createdAt, v.isActive, v.status)
  }

  /**
   * The status invariant: a vendor whose deactivation is pending or
   * done is inactive, and an active vendor is active.
   */
  predicate Consistent(v: Vendor)
  {
    && (v.status == PendingDeactivation || v.status == Deactivated ==> !v.isActive)
    && (v.status == Active ==> v.isActive)
  }

  /**
   * The stronger invariant that every row created and changed by the
   * handlers keeps: `is_active` holds exactly in the `active` state.
   */
  predicate Coherent(v: Vendor)
  {
    v.isActive <==> v.status == Active
  }

  /** The reason a status request is refused with 400. */
  datatype Refusal = DeactivationPending | AlreadyDeactivated | ActivationPending | AlreadyActive

  /** Why a deactivation request is refused, checked in the handler's order. */
  function DeactivationRefusal(v: Vendor): (r: Option<Refusal>)
    ensures r == None <==> v.status != PendingDeactivation && v.status != Deactivated && v.isActive
  {
    if v.status == PendingDeactivation then Some(DeactivationPending)
    else if v.status == Deactivated || !v.isActive then Some(AlreadyDeactivated)
    else None
  }

  /** Why a reactivation request is refused, checked in the handler's order. */
  function ReactivationRefusal(v: Vendor): (r: Option<Refusal>)
    ensures r == None <==> v.status != PendingActivation && !(v.isActive && v.status == Active)
  {
    if v.status == PendingActivation then Some(ActivationPending)
    else if v.isActive && v.status == Active then Some(AlreadyActive)
    else None
  }

  /** The row after an accepted deactivation request by `actor` at time `at`. */
  function WithDeactivationRequested(v: Vendor, actor: int, at: int): Vendor
  {
    v.(status := PendingDeactivation, isActive := false, requestedBy := Some(actor), requestedAt := Some(at))
  }

  /** The row after an accepted reactivation request; `is_active` is left as it was. */
  function WithReactivationRequested(v: Vendor, actor: int, at: int): Vendor
  {
    v.(status := PendingActivation, requestedBy := Some(actor), requestedAt := Some(at))
  }

  /** The row after a status reset, whatever its state before. */
  function WithStatusReset(v: Vendor): Vendor
  {
    v.(status := Active, isActive := true, requestedBy := None, requestedAt := None)
  }

  /** The row after a profile edit; the digest is replaced only when a new one is given. */
  function WithProfile(v: Vendor, p: Profile, newHash: Option<string>): Vendor
  {
    v.(profile := p, passwordHash := if newHash.Some? then newHash.value else v.passwordHash)
  }

  /** A freshly inserted row: the table's defaults make it active with no pending request. */
  function NewVendor(p: Profile, digest: string, now: int): (v: Vendor)
    ensures Coherent(v) && Consistent(v)
  {
    Vendor(p, digest, now, true, Active, None, None)
  }

  /** The effect of an accepted deactivation request, and what it leaves alone. */
  lemma DeactivationRequestEffect(v: Vendor, actor: int, at: int)
    ensures var w := WithDeactivationRequested(v, actor, at);
      && w.status == PendingDeactivation && !w.isActive
      && w.requestedBy == Some(actor) && w.requestedAt == Some(at)
      && w.profile == v.profile && w.passwordHash == v.passwordHash && w.createdAt == v.createdAt
      && Consistent(w) && Coherent(w)
  {
  }

  /** The effect of an accepted reactivation request, and what it leaves alone. */
  lemma ReactivationRequestEffect(v: Vendor, actor: int, at: int)
    requires Coherent(v) && ReactivationRefusal(v) == None
    ensures var w := WithReactivationRequested(v, actor, at);
      && w.status == PendingActivation && w.isActive == v.isActive && !w.isActive
      && w.requestedBy == Some(actor) && w.requestedAt == Some(at)
      && w.profile == v.profile && w.passwordHash == v.passwordHash && w.createdAt == v.createdAt
      && Consistent(w) && Coherent(w)
  {
  }

  /** A reset reaches the same active row from every state, so applying it twice equals applying it once. */
  lemma ResetIsIdempotent(v: Vendor, u: Vendor)
    requires u.profile == v.profile && u.passwordHash == v.passwordHash && u.createdAt == v.createdAt
    ensures WithStatusReset(u) == WithStatusReset(v)
    ensures WithStatusReset(WithStatusReset(v)) == WithStatusReset(v)
    ensures var w := WithStatusReset(v);
      w.isActive && w.status == Active && w.requestedBy == None && w.requestedAt == None
      && Consistent(w) && Coherent(w)
  {
  }

  /** A profile edit never touches the status columns, so it keeps both invariants. */
  lemma ProfileEditKeepsStatus(v: Vendor, p: Profile, newHash: Option<string>)
    ensures var w := WithProfile(v, p, newHash);
      && w.isActive == v.isActive && w.status == v.status
      && w.requestedBy == v.requestedBy && w.requestedAt == v.requestedAt
      && (newHash == None ==> w.passwordHash == v.passwordHash)
      && (Consistent(v) ==> Consistent(w)) && (Coherent(v) ==> Coherent(w))
  {
  }

  /** One request against a single row, as the handlers apply it. */
  datatype Transition =
    | RequestDeactivation(actor: int, at: int)
    | RequestReactivation(actor: int, at: int)
    | ResetStatus
    | EditProfile(profile: Profile, newHash: Option<string>)

  /** The row after one request; a refused request leaves it unchanged. */
  function Step(v: Vendor, t: Transition): Vendor
  {
    match t
    case RequestDeactivation(actor, at) =>
      if DeactivationRefusal(v) == None then WithDeactivationRequested(v, actor, at) else v
    case RequestReactivation(actor, at) =>
      if ReactivationRefusal(v) == None then WithReactivationRequested(v, actor, at) else v
    case ResetStatus => WithStatusReset(v)
    case EditProfile(p, h) => WithProfile(v, p, h)
  }

  /** The row after a series of requests, in order. */
  function Run(v: Vendor, ts: seq<Transition>): Vendor
    decreases |ts|
  {
    if ts == [] then v else Run(Step(v, ts[0]), ts[1..])
  }

  /** Every request keeps the status/`is_active` invariant. */
  lemma {:induction false} RunKeepsConsistent(v: Vendor, ts: seq<Transition>)
    requires Consistent(v)
    ensures Consistent(Run(v, ts))
    decreases |ts|
  {
    if ts != [] {
      assert Consistent(Step(v, ts[0]));
      RunKeepsConsistent(Step(v, ts[0]), ts[1..]);
    }
  }

  /** From a row the handlers created, `is_active` holds exactly in the `active` state forever after. */
  lemma {:induction false} RunKeepsCoherent(v: Vendor, ts: seq<Transition>)
    requires Coherent(v)
    ensures Coherent(Run(v, ts))
    decreases |ts|
  {
    if ts != [] {
      assert Coherent(Step(v, ts[0]));
      RunKeepsCoherent(Step(v, ts[0]), ts[1..]);
    }
  }

  /** No handler moves a row into `deactivated`: that state is only reachable from outside. */
  lemma {:induction false} RunNeverDeactivates(v: Vendor, ts: seq<Transition>)
    requires v.status != Deactivated
    ensures Run(v, ts).status != Deactivated
    decreases |ts|
  {
    if ts != [] {
      RunNeverDeactivates(Step(v, ts[0]), ts[1..]);
    }
  }

  /** Status requests never change the profile, the digest or the creation time. */
  lemma {:induction false} StatusRequestsKeepProfile(v: Vendor, ts: seq<Transition>)
    requires forall i :: 0 <= i < |ts| ==> !ts[i].EditProfile?
    ensures Run(v, ts).profile == v.profile
    ensures Run(v, ts).passwordHash == v.passwordHash
    ensures Run(v, ts).createdAt == v.createdAt
    decreases |ts|
  {
    if ts != [] {
      StatusRequestsKeepProfile(Step(v, ts[0]), ts[1..]);
    }
  }

  /** The vendors' emails are pairwise distinct. */
  predicate EmailsUnique(rows: map<int, Vendor>)
  {
    forall a, b :: a in rows && b in rows && a != b ==> rows[a].profile.email != rows[b].profile.email
  }

  /** Some vendor already has this email. */
  predicate EmailInUse(rows: map<int, Vendor>, email: string)
  {
    exists id | id in rows :: rows[id].profile.email == email
  }

  /** Inserting a row whose email is not in use keeps the emails distinct. */
  lemma InsertKeepsEmailsUnique(rows: map<int, Vendor>, id: int, v: Vendor)
    requires EmailsUnique(rows) && id !in rows && !EmailInUse(rows, v.profile.email)
    ensures EmailsUnique(rows[id := v])
  {
    var rows' := rows[id := v];
    forall a, b | a in rows' && b in rows' && a != b
      ensures rows'[a].profile.email != rows'[b].profile.email
    {
      if a == id {
        assert rows'[b] == rows[b];
      } else if b == id {
        assert rows'[a] == rows[a];
      }
    }
  }
}
