/**
 * The vendor handlers of the authentication controller: a role gate in front
 * of a check-then-write state machine over the `vendors` table.
 *
 * The table, the password hasher, the clock, the socket broadcast and the
 * mailer are abstracted: rows are a map from id to `Vendor`, the hasher is a
 * function fixed at construction, the clock is a `now` parameter, and the
 * broadcasts and mails are appended to two logs.
 */
module AuthController {
  import opened Wrappers
  import opened VendorRecords

  /** The identity the token verifier attached to the request. */
  datatype Caller = Caller(id: int, role: string)

  /** The role gate every vendor handler applies first. */
  predicate MayManageVendors(c: Caller)
  {
    c.role == "vendor"
  }

  /** The request body of the add and update handlers; "" stands for a missing or empty field. */
  datatype VendorInput = VendorInput(
    name: string,
    companyName: string,
    companyType: string,
    gstin: string,
    contactNumber: string,
    email: string,
    password: string,
    address: string,
    pincode: string)

  function ProfileOf(input: VendorInput): Profile
  {
    Profile(input.name, input.companyName, input.companyType, input.gstin, input.contactNumber,
            input.email, input.address, input.pincode)
  }

  /** Some of the nine fields the add handler demands is missing or empty. */
  predicate HasEmptyField(input: VendorInput)
  {
    || input.name == "" || input.companyName == "" || input.companyType == ""
    || input.gstin == "" || input.contactNumber == "" || input.email == ""
    || input.password == "" || input.address == "" || input.pincode == ""
  }

  /** A broadcast on the notification channel, carrying the returned columns. */
  datatype Event = VendorAdded(vendor: Snapshot) | VendorUpdated(vendor: Snapshot) | VendorStatusChanged(vendor: Snapshot)

  /** The channel name each broadcast is sent under. */
  function EventName(e: Event): string
  {
    match e
    case VendorAdded(_) => "vendor_added"
    case VendorUpdated(_) => "vendor_updated"
    case VendorStatusChanged(_) => "vendor_status_changed"
  }

  /** A credentials mail: recipient, plaintext password and subject. */
  datatype Mail = Mail(to: string, password: string, subject: string)

  const AccountCreatedSubject := "Your Vendor Account Details"
  const AccountUpdatedSubject := "Your Vendor Account Updated"

  /** Why a request is answered with 400. */
  datatype BadRequestReason = AllFieldsRequired | EmailTaken | StatusRefused(refusal: Refusal)

  /** The handlers' answers; `StatusCode` gives the HTTP status of each. */
  datatype Response =
    | Forbidden
    | BadRequest(reason: BadRequestReason)
    | NotFound
    | Created(vendor: Snapshot)
    | Updated(vendor: Snapshot)
    | RequestSubmitted
    | StatusReset(vendor: Snapshot)
    | Vendors(list: seq<Listing>)

  function StatusCode(r: Response): int
  {
    match r
    case Forbidden => 403
    case BadRequest(_) => 400
    case NotFound => 404
    case Created(_) => 201
    case _ => 200
  }

  /**
   * `list` is a full scan of `rows` in some order: one listing per row, each
   * listing the row's current columns, no id twice.
   */
  predicate IsScanOf(rows: map<int, Vendor>, list: seq<Listing>)
  {
    && |list| == |rows.Keys|
    && (forall k :: 0 <= k < |list| ==> list[k].id in rows && list[k] == ListingOf(list[k].id, rows[list[k].id]))
    && (forall id :: id in rows ==> ListingOf(id, rows[id]) in list)
    && (forall i, j :: 0 <= i < j < |list| ==> list[i].id != list[j].id)
  }

  /** `list` lists exactly the rows whose ids are in `scanned`, one listing each. */
  predicate Scanned(rows: map<int, Vendor>, scanned: set<int>, list: seq<Listing>)
  {
    && scanned <= rows.Keys
    && |list| == |scanned|
    && (forall k :: 0 <= k < |list| ==> list[k].id in scanned && list[k] == ListingOf(list[k].id, rows[list[k].id]))
    && (forall id :: id in scanned ==> ListingOf(id, rows[id]) in list)
    && (forall i, j :: 0 <= i < j < |list| ==> list[i].id != list[j].id)
  }

  /** Appending the listing of a row not yet scanned extends the scan by that row. */
  lemma ScanStep(rows: map<int, Vendor>, scanned: set<int>, list: seq<Listing>, id: int)
    requires Scanned(rows, scanned, list)
    requires id in rows && id !in scanned
    ensures Scanned(rows, scanned + {id}, list + [ListingOf(id, rows[id])])
  {
    var list' := list + [ListingOf(id, rows[id])];
    forall i, j | 0 <= i < j < |list'|
      ensures list'[i].id != list'[j].id
    {
      if j == |list| {
        assert list'[i].id in scanned;
      }
    }
  }

  /** Every row satisfies the stronger status invariant. */
  ghost predicate AllCoherent(rows: map<int, Vendor>)
  {
    forall id :: id in rows ==> Coherent(rows[id])
  }

  /** A non-empty set of ids has a member to pick. */
  lemma NonEmptyHasMember(s: set<int>)
    requires s != {}
    ensures exists k :: k in s
  {
    if forall k :: k !in s {
      assert false;
    }
  }

  class VendorService {
    /** The password hasher. */
    const hash: string -> string
    /** The `vendors` table, by id. */
    var rows: map<int, Vendor>
    /** The id the next insert receives. */
    var nextId: int
    /** Everything broadcast so far, oldest first. */
    var events: seq<Event>
    /** Every credentials mail sent so far, oldest first. */
    var outbox: seq<Mail>

    ghost predicate Valid()
      reads this
    {
      && 1 <= nextId
      && forall id :: id in rows ==> 1 <= id < nextId && Consistent(rows[id])
    }

    constructor (hash: string -> string)
      ensures Valid()
      ensures this.hash == hash && rows == map[] && nextId == 1 && events == [] && outbox == []
    {
      this.hash := hash;
      rows := map[];
      nextId := 1;
      events := [];
      outbox := [];
    }

    /** Adds a vendor with a hashed password, mails the credentials and broadcasts the new row. */
    method AddVendor(caller: Caller, input: VendorInput, now: int) returns (resp: Response)
      requires Valid()
      modifies this
      ensures Valid()
      ensures !MayManageVendors(caller) ==> resp == Forbidden && unchanged(this)
      ensures MayManageVendors(caller) && HasEmptyField(input) ==>
        resp == BadRequest(AllFieldsRequired) && unchanged(this)
      ensures MayManageVendors(caller) && !HasEmptyField(input) && EmailInUse(old(rows), input.email) ==>
        resp == BadRequest(EmailTaken) && unchanged(this)
      ensures MayManageVendors(caller) && !HasEmptyField(input) && !EmailInUse(old(rows), input.email) ==>
        var id := old(nextId);
        var v := NewVendor(ProfileOf(input), hash(input.password), now);
        && id !in old(rows)
        && rows == old(rows)[id := v]
        && nextId == id + 1
        && resp == Created(SnapshotOf(id, v))
        && events == old(events) + [VendorAdded(SnapshotOf(id, v))]
        && outbox == old(outbox) + [Mail(input.email, input.password, AccountCreatedSubject)]
      ensures EmailsUnique(old(rows)) ==> EmailsUnique(rows)
      ensures AllCoherent(old(rows)) ==> AllCoherent(rows)
    {
      if !MayManageVendors(caller) {
        return Forbidden;
      }
      if HasEmptyField(input) {
        return BadRequest(AllFieldsRequired);
      }
      if exists id | id in rows :: rows[id].profile.email == input.email {
        return BadRequest(EmailTaken);
      }
      var digest := hash(input.password);
      var id := nextId;
      var v := NewVendor(ProfileOf(input), digest, now);
      if EmailsUnique(rows) {
        InsertKeepsEmailsUnique(rows, id, v);
      }
      rows := rows[id := v];
      nextId := nextId + 1;
      outbox := outbox + [Mail(input.email, input.password, AccountCreatedSubject)];
      events := events + [VendorAdded(SnapshotOf(id, v))];
      resp := Created(SnapshotOf(id, v));
    }

    /**
     * Overwrites the eight profile columns of a vendor; the password is
     * re-hashed, replaced and mailed only when one is supplied.
     */
    method UpdateVendor(caller: Caller, id: int, input: VendorInput) returns (resp: Response)
      requires Valid()
      modifies this
      ensures Valid()
      ensures !MayManageVendors(caller) ==> resp == Forbidden && unchanged(this)
      ensures MayManageVendors(caller) && id !in old(rows) ==> resp == NotFound && unchanged(this)
      ensures MayManageVendors(caller) && id in old(rows) ==>
        var newHash := if input.password != "" then Some(hash(input.password)) else None;
        var v := WithProfile(old(rows)[id], ProfileOf(input), newHash);
        && rows == old(rows)[id := v]
        && nextId == old(nextId)
        && resp == Updated(SnapshotOf(id, v))
        && events == old(events) + [VendorUpdated(SnapshotOf(id, v))]
        && outbox == old(outbox) +
             (if input.password != "" then [Mail(input.email, input.password, AccountUpdatedSubject)] else [])
      ensures AllCoherent(old(rows)) ==> AllCoherent(rows)
    {
      if !MayManageVendors(caller) {
        return Forbidden;
      }
      if id !in rows {
        return NotFound;
      }
      var newHash := None;
      if input.password != "" {
        newHash := Some(hash(input.password));
      }
      var v := WithProfile(rows[id], ProfileOf(input), newHash);
      ProfileEditKeepsStatus(rows[id], ProfileOf(input), newHash);
      rows := rows[id := v];
      if input.password != "" {
        outbox := outbox + [Mail(input.email, input.password, AccountUpdatedSubject)];
      }
      events := events + [VendorUpdated(SnapshotOf(id, v))];
      resp := Updated(SnapshotOf(id, v));
    }

    /** Marks an active vendor as pending deactivation, inactive at once, recording who asked and when. */
    method RequestVendorDeactivation(caller: Caller, id: int, now: int) returns (resp: Response)
      requires Valid()
      modifies this
      ensures Valid()
      ensures !MayManageVendors(caller) ==> resp == Forbidden && unchanged(this)
      ensures MayManageVendors(caller) && id !in old(rows) ==> resp == NotFound && unchanged(this)
      ensures MayManageVendors(caller) && id in old(rows) && DeactivationRefusal(old(rows)[id]).Some? ==>
        resp == BadRequest(StatusRefused(DeactivationRefusal(old(rows)[id]).value)) && unchanged(this)
      ensures MayManageVendors(caller) && id in old(rows) && DeactivationRefusal(old(rows)[id]) == None ==>
        var v := WithDeactivationRequested(old(rows)[id], caller.id, now);
        && rows == old(rows)[id := v]
        && nextId == old(nextId) && outbox == old(outbox)
        && resp == RequestSubmitted
        && events == old(events) + [VendorStatusChanged(SnapshotOf(id, v))]
      ensures AllCoherent(old(rows)) ==> AllCoherent(rows)
    {
      if !MayManageVendors(caller) {
        return Forbidden;
      }
      if id !in rows {
        return NotFound;
      }
      var refusal := DeactivationRefusal(rows[id]);
      if refusal.Some? {
        return BadRequest(StatusRefused(refusal.value));
      }
      var v := WithDeactivationRequested(rows[id], caller.id, now);
      DeactivationRequestEffect(rows[id], caller.id, now);
      rows := rows[id := v];
      events := events + [VendorStatusChanged(SnapshotOf(id, v))];
      resp := RequestSubmitted;
    }

    /** Puts a vendor back to active from any state, clearing the pending request. */
    method ResetVendorStatus(caller: Caller, id: int) returns (resp: Response)
      requires Valid()
      modifies this
      ensures Valid()
      ensures !MayManageVendors(caller) ==> resp == Forbidden && unchanged(this)
      ensures MayManageVendors(caller) && id !in old(rows) ==> resp == NotFound && unchanged(this)
      ensures MayManageVendors(caller) && id in old(rows) ==>
        var v := WithStatusReset(old(rows)[id]);
        && rows == old(rows)[id := v]
        && nextId == old(nextId) && outbox == old(outbox)
        && resp == StatusReset(SnapshotOf(id, v))
        && events == old(events) + [VendorStatusChanged(SnapshotOf(id, v))]
      ensures AllCoherent(old(rows)) ==> AllCoherent(rows)
    {
      if !MayManageVendors(caller) {
        return Forbidden;
      }
      if id !in rows {
        return NotFound;
      }
      var v := WithStatusReset(rows[id]);
      rows := rows[id := v];
      events := events + [VendorStatusChanged(SnapshotOf(id, v))];
      resp := StatusReset(SnapshotOf(id, v));
    }

    /** Marks a vendor as pending activation, recording who asked and when; `is_active` is untouched. */
    method RequestVendorReactivation(caller: Caller, id: int, now: int) returns (resp: Response)
      requires Valid()
      modifies this
      ensures Valid()
      ensures !MayManageVendors(caller) ==> resp == Forbidden && unchanged(this)
      ensures MayManageVendors(caller) && id !in old(rows) ==> resp == NotFound && unchanged(this)
      ensures MayManageVendors(caller) && id in old(rows) && ReactivationRefusal(old(rows)[id]).Some? ==>
        resp == BadRequest(StatusRefused(ReactivationRefusal(old(rows)[id]).value)) && unchanged(this)
      ensures MayManageVendors(caller) && id in old(rows) && ReactivationRefusal(old(rows)[id]) == None ==>
        var v := WithReactivationRequested(old(rows)[id], caller.id, now);
        && rows == old(rows)[id := v]
        && rows[id].isActive == old(rows)[id].isActive
        && nextId == old(nextId) && outbox == old(outbox)
        && resp == RequestSubmitted
        && events == old(events) + [VendorStatusChanged(SnapshotOf(id, v))]
      ensures AllCoherent(old(rows)) ==> AllCoherent(rows)
    {
      if !MayManageVendors(caller) {
        return Forbidden;
      }
      if id !in rows {
        return NotFound;
      }
      var refusal := ReactivationRefusal(rows[id]);
      if refusal.Some? {
        return BadRequest(StatusRefused(refusal.value));
      }
      var v := WithReactivationRequested(rows[id], caller.id, now);
      rows := rows[id := v];
      events := events + [VendorStatusChanged(SnapshotOf(id, v))];
      resp := RequestSubmitted;
    }

    /** Lists every vendor, without password or requester, in the order the table scan yields. */
    method GetAllVendors(caller: Caller) returns (resp: Response)
      ensures !MayManageVendors(caller) ==> resp == Forbidden
      ensures MayManageVendors(caller) ==> resp.Vendors? && IsScanOf(rows, resp.list)
    {
      if !MayManageVendors(caller) {
        return Forbidden;
      }
      var list: seq<Listing> := [];
      var remaining := rows.Keys;
      while remaining != {}
        invariant remaining <= rows.Keys
        invariant Scanned(rows, rows.Keys - remaining, list)
        decreases remaining
      {
        NonEmptyHasMember(remaining);
        var id :| id in remaining;
        ScanStep(rows, rows.Keys - remaining, list, id);
        assert rows.Keys - (remaining - {id}) == (rows.Keys - remaining) + {id};
        list := list + [ListingOf(id, rows[id])];
        remaining := remaining - {id};
      }
      assert rows.Keys - remaining == rows.Keys;
      resp := Vendors(list);
    }
  }
}
