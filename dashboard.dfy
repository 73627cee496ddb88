/** The user-management dashboard: its component state (the roster, the selected
    user, two draft buffers and three modal flags) and the event handlers that change
    it. Each handler runs to completion; what the network, the confirmation dialog and
    local storage answer are the handler's inputs, and the requests sent, the dialogs
    shown and the navigations made are appended to logs on the object. */
module UserDashboard {
  import opened JsValues
  import opened Roster
  import opened Routes

  /** A draft buffer: the add form's `newUser` or the update form's `updatedUser`. */
  datatype Draft = Draft(fullname: Value, username: Value, password: Value)

  const EmptyDraft := Draft(Str(""), Str(""), Str(""))

  datatype DraftField = FullName | UserName | Password

  /** The update form as `handleUpdate` seeds it from a roster record. */
  function SeedDraft(user: Record): (d: Draft)
    ensures d.fullname == Get(user, "fullname") && d.username == Get(user, "username")
    ensures !Truthy(d.password)
  {
    Draft(Get(user, "fullname"), Get(user, "username"), Str(""))
  }

  /** The PUT body of `handleUpdateUser`: fullname and username always, password only
      when the draft's password is truthy (`...(password && { password })`). */
  function UpdatePayload(d: Draft): (payload: Record)
    ensures "fullname" in payload && payload["fullname"] == d.fullname
    ensures "username" in payload && payload["username"] == d.username
    ensures "password" in payload <==> Truthy(d.password)
    ensures "password" in payload ==> payload["password"] == d.password
    ensures payload.Keys <= {"fullname", "username", "password"}
  {
    var named := map["fullname" := d.fullname, "username" := d.username];
    if Truthy(d.password) then named["password" := d.password] else named
  }

  /** The POST body of `handleAddUser`. */
  function NewUserBody(d: Draft): (body: Record)
    ensures IsSendable(PostRegister(body))
    ensures body["fullname"] == d.fullname && body["username"] == d.username
    ensures body["password"] == d.password
  {
    map["fullname" := d.fullname, "username" := d.username, "password" := d.password]
  }

  /** The target of `handleDelete`: `id || user.user_id`. None stands for the TypeError
      thrown when the id is falsy and no session user was decoded. */
  function DeleteTarget(id: Value, session: Option<Record>): (target: Option<Value>)
    ensures Truthy(id) ==> target == Some(id)
    ensures !Truthy(id) && target.Some? ==> session.Some? && target.value == Get(session.value, "user_id")
    ensures target.None? ==> !Truthy(id) && session.None?
  {
    if Truthy(id) then Some(id)
    else if session.Some? then Some(Get(session.value, "user_id"))
    else None
  }

  /** The guard of `handleUpdateUser`: a selected user whose `user_id` is truthy and
      not NaN. A selection that passes carries an id its own record strictly equals,
      so the update's merge can find it. */
  predicate IsValidSelection(selected: Option<Record>)
    ensures IsValidSelection(selected) ==>
      selected.Some? && HasId(selected.value, Get(selected.value, "user_id"))
  {
    selected.Some? &&
    var id := Get(selected.value, "user_id");
    Truthy(id) && !IsNaN(id)
  }

  /** The token gate `!token` on the parsed token: absent or the empty string fails. */
  predicate HasToken(token: Option<string>)
    ensures HasToken(token) <==> token.Some? && Truthy(Str(token.value))
  {
    token.Some? && token.value != ""
  }

  // ---------------------------------------------------------------------------
  // Side effects, as values

  datatype Request =
    | GetUsers                                // GET /api/users
    | DeleteUser(target: Value)               // DELETE /api/users/{target}
    | PutUser(target: Value, body: Record)    // PUT /api/users/{target}
    | PostRegister(body: Record)              // POST /api/auth/register

  /** What the dashboard only ever sends: a delete with a truthy id, an update with a
      checked id and a body holding fullname and username but no id, a registration
      with exactly the three draft fields. */
  predicate IsSendable(r: Request)
  {
    match r
    case GetUsers => true
    case DeleteUser(target) => Truthy(target)
    case PutUser(target, body) =>
      Truthy(target) && !IsNaN(target) &&
      "fullname" in body && "username" in body && "user_id" !in body
    case PostRegister(body) => body.Keys == {"fullname", "username", "password"}
  }

  datatype Icon = SuccessIcon | ErrorIcon | WarningIcon

  datatype Dialog = Dialog(title: string, text: string, icon: Icon)

  const MissingIdDialog := Dialog("Error", "User ID is missing", ErrorIcon)
  const ConfirmDeleteDialog := Dialog("Are you sure?", "This action will permanently delete the user!", WarningIcon)
  const DeletedDialog := Dialog("Deleted!", "The user has been deleted.", SuccessIcon)
  const DeleteFailedDialog := Dialog("Error", "There was an issue deleting the user.", ErrorIcon)
  const CreatedDialog := Dialog("Success", "User has been created.", SuccessIcon)
  const CreateFailedDialog := Dialog("Error", "There was an issue creating the user.", ErrorIcon)
  const InvalidSelectionDialog := Dialog("Error", "User details are missing or invalid.", ErrorIcon)
  const TokenMissingDialog := Dialog("Error", "Token is missing. Please log in again.", ErrorIcon)
  const UpdatedDialog := Dialog("Success", "User details updated successfully.", SuccessIcon)

  function UpdateFailedDialog(message: string): Dialog
  {
    Dialog("Error", "There was an issue updating the user: " + message, ErrorIcon)
  }

  /** What the server answered to the update: success, or the message of the error
      raised for it. */
  datatype Reply = Accepted | Refused(message: string)

  datatype MountOutcome = NoToken | UndecodableToken | FetchFailed | Loaded
  datatype DeleteOutcome = NoSession | MissingId | Declined | Deleted | DeleteFailed
  datatype AddOutcome = CreateFailed | RefetchFailed | Added
  datatype UpdateOutcome = InvalidSelection | TokenMissing | Updated | UpdateFailed

  class Dashboard {
    var session: Option<Record>          // `user`: the decoded token
    var users: seq<Record>
    var showViewModal: bool              // `showModal`
    var showAddUserModal: bool
    var showUpdateUserModal: bool
    var newUser: Draft
    var selectedUser: Option<Record>
    var updatedUser: Draft
    var requests: seq<Request>
    var dialogs: seq<Dialog>
    var navigations: seq<string>

    /** Every request sent so far has the shape `IsSendable` admits: a delete of a
        truthy id, an update of a truthy, non-NaN id with a body naming the user but
        not the id, a registration body of exactly the three draft fields. The token,
        decode and confirmation gates are stated by each handler's own contract. */
    ghost predicate Valid()
      reads this
    {
      forall k :: 0 <= k < |requests| ==> IsSendable(requests[k])
    }

    /** The state `useState` starts the component with. */
    constructor ()
      ensures Valid()
      ensures session == None && users == [] && selectedUser == None
      ensures !showViewModal && !showAddUserModal && !showUpdateUserModal
      ensures newUser == EmptyDraft && updatedUser == EmptyDraft
      ensures requests == [] && dialogs == [] && navigations == []
    {
      session, users, selectedUser := None, [], None;
      showViewModal, showAddUserModal, showUpdateUserModal := false, false, false;
      newUser, updatedUser := EmptyDraft, EmptyDraft;
      requests, dialogs, navigations := [], [], [];
    }

    /** The mount effect: without a stored token, or when it cannot be decoded or the
        roster cannot be fetched, go to the login page; otherwise keep the decoded user
        and the fetched roster. `stored` is what local storage holds, `decoded` the
        token parsed and decoded (None when that throws), `fetched` the roster (None
        when the request fails). */
    method Mount(stored: Option<string>, decoded: Option<Record>, fetched: Option<seq<Record>>)
      returns (outcome: MountOutcome)
      requires Valid()
      modifies this`session, this`users, this`requests, this`navigations
      ensures Valid()
      ensures !HasToken(stored) ==>
        outcome == NoToken && session == old(session) && requests == old(requests)
      ensures HasToken(stored) && decoded.None? ==>
        outcome == UndecodableToken && session == old(session) && requests == old(requests)
      ensures HasToken(stored) && decoded.Some? ==>
        session == decoded && requests == old(requests) + [GetUsers] &&
        outcome == (if fetched.Some? then Loaded else FetchFailed)
      ensures outcome == Loaded ==>
        users == fetched.value && navigations == old(navigations)
      ensures outcome != Loaded ==>
        users == old(users) && navigations == old(navigations) + [LoginPath]
    {
      if !HasToken(stored) {
        navigations := navigations + [LoginPath];
        return NoToken;
      }
      if decoded.None? {
        navigations := navigations + [LoginPath];
        return UndecodableToken;
      }
      session := decoded;
      requests := requests + [GetUsers];
      if fetched.None? {
        navigations := navigations + [LoginPath];
        return FetchFailed;
      }
      users := fetched.value;
      outcome := Loaded;
    }

    /** `handleView`: select the record and open the view modal. */
    method View(user: Record)
      requires Valid()
      modifies this`selectedUser, this`showViewModal
      ensures Valid()
      ensures selectedUser == Some(user) && showViewModal
    {
      selectedUser := Some(user);
      showViewModal := true;
    }

    /** `handleUpdate`: seed the update draft from the record, password blank, select
        the record and open the update modal. */
    method OpenUpdate(user: Record)
      requires Valid()
      modifies this`updatedUser, this`selectedUser, this`showUpdateUserModal
      ensures Valid()
      ensures updatedUser == SeedDraft(user)
      ensures selectedUser == Some(user) && showUpdateUserModal
    {
      updatedUser := SeedDraft(user);
      selectedUser := Some(user);
      showUpdateUserModal := true;
    }

    /** The "Add User" button: opens the add modal; the draft keeps what it held. */
    method OpenAdd()
      requires Valid()
      modifies this`showAddUserModal
      ensures Valid()
      ensures showAddUserModal
    {
      showAddUserModal := true;
    }

    /** Closing a modal hides it and nothing more; its draft is kept. */
    method CloseView()
      requires Valid()
      modifies this`showViewModal
      ensures Valid()
      ensures !showViewModal
    {
      showViewModal := false;
    }

    method CloseAdd()
      requires Valid()
      modifies this`showAddUserModal
      ensures Valid()
      ensures !showAddUserModal
    {
      showAddUserModal := false;
    }

    method CloseUpdate()
      requires Valid()
      modifies this`showUpdateUserModal
      ensures Valid()
      ensures !showUpdateUserModal
    {
      showUpdateUserModal := false;
    }

    /** Typing into the add form: `setNewUser({ ...newUser, field: text })`. */
    method EditNewUser(field: DraftField, text: string)
      requires Valid()
      modifies this`newUser
      ensures Valid()
      ensures newUser == match field
        case FullName => old(newUser).(fullname := Str(text))
        case UserName => old(newUser).(username := Str(text))
        case Password => old(newUser).(password := Str(text))
    {
      match field
      case FullName => newUser := newUser.(fullname := Str(text));
      case UserName => newUser := newUser.(username := Str(text));
      case Password => newUser := newUser.(password := Str(text));
    }

    /** Typing into the update form: `setUpdatedUser({ ...updatedUser, field: text })`. */
    method EditUpdatedUser(field: DraftField, text: string)
      requires Valid()
      modifies this`updatedUser
      ensures Valid()
      ensures updatedUser == match field
        case FullName => old(updatedUser).(fullname := Str(text))
        case UserName => old(updatedUser).(username := Str(text))
        case Password => old(updatedUser).(password := Str(text))
    {
      match field
      case FullName => updatedUser := updatedUser.(fullname := Str(text));
      case UserName => updatedUser := updatedUser.(username := Str(text));
      case Password => updatedUser := updatedUser.(password := Str(text));
    }

    /** `handleDelete(id)`. The target is `id`, or the session user's id when `id` is
        falsy; a falsy target shows an error; otherwise the operator is asked, and only
        a confirmed delete sends a request. When the server answers `ok`, every record
        carrying the target id leaves the roster. */
    method Delete(id: Value, confirmed: bool, ok: bool) returns (outcome: DeleteOutcome)
      requires Valid()
      modifies this`users, this`requests, this`dialogs
      ensures Valid()
      ensures DeleteTarget(id, session).None? ==>
        outcome == NoSession &&
        users == old(users) && requests == old(requests) && dialogs == old(dialogs)
      ensures DeleteTarget(id, session).Some? && !Truthy(DeleteTarget(id, session).value) ==>
        outcome == MissingId && users == old(users) && requests == old(requests) &&
        dialogs == old(dialogs) + [MissingIdDialog]
      ensures DeleteTarget(id, session).Some? && Truthy(DeleteTarget(id, session).value) && !confirmed ==>
        outcome == Declined && users == old(users) && requests == old(requests) &&
        dialogs == old(dialogs) + [ConfirmDeleteDialog]
      ensures DeleteTarget(id, session).Some? && Truthy(DeleteTarget(id, session).value) && confirmed ==>
        var target := DeleteTarget(id, session).value;
        requests == old(requests) + [DeleteUser(target)] &&
        if ok then
          outcome == Deleted && users == RemoveById(old(users), target) &&
          dialogs == old(dialogs) + [ConfirmDeleteDialog, DeletedDialog]
        else
          outcome == DeleteFailed && users == old(users) &&
          dialogs == old(dialogs) + [ConfirmDeleteDialog, DeleteFailedDialog]
    {
      if !Truthy(id) && session.None? {
        // reading `user.user_id` of the null session throws before anything is shown
        return NoSession;
      }
      var target := if Truthy(id) then id else Get(session.value, "user_id");
      if !Truthy(target) {
        dialogs := dialogs + [MissingIdDialog];
        return MissingId;
      }
      dialogs := dialogs + [ConfirmDeleteDialog];
      if !confirmed {
        return Declined;
      }
      requests := requests + [DeleteUser(target)];
      if !ok {
        dialogs := dialogs + [DeleteFailedDialog];
        return DeleteFailed;
      }
      dialogs := dialogs + [DeletedDialog];
      users := RemoveById(users, target);
      outcome := Deleted;
    }

    /** `handleAddUser`: post the add draft; once created, refetch the roster and
        replace it wholesale, then close the modal. Any failure shows an error and
        leaves the roster and the modal as they were. */
    method AddUser(created: bool, refetched: Option<seq<Record>>) returns (outcome: AddOutcome)
      requires Valid()
      modifies this`users, this`showAddUserModal, this`requests, this`dialogs
      ensures Valid()
      ensures !created ==>
        outcome == CreateFailed && users == old(users) && showAddUserModal == old(showAddUserModal) &&
        requests == old(requests) + [PostRegister(NewUserBody(newUser))] &&
        dialogs == old(dialogs) + [CreateFailedDialog]
      ensures created && refetched.None? ==>
        outcome == RefetchFailed && users == old(users) && showAddUserModal == old(showAddUserModal) &&
        requests == old(requests) + [PostRegister(NewUserBody(newUser)), GetUsers] &&
        dialogs == old(dialogs) + [CreatedDialog, CreateFailedDialog]
      ensures created && refetched.Some? ==>
        outcome == Added && users == refetched.value && !showAddUserModal &&
        requests == old(requests) + [PostRegister(NewUserBody(newUser)), GetUsers] &&
        dialogs == old(dialogs) + [CreatedDialog]
    {
      requests := requests + [PostRegister(NewUserBody(newUser))];
      if !created {
        dialogs := dialogs + [CreateFailedDialog];
        return CreateFailed;
      }
      dialogs := dialogs + [CreatedDialog];
      requests := requests + [GetUsers];
      if refetched.None? {
        dialogs := dialogs + [CreateFailedDialog];
        return RefetchFailed;
      }
      users := refetched.value;
      showAddUserModal := false;
      outcome := Added;
    }

    /** `handleUpdateUser`: check the selection and the token before sending anything;
        then PUT the payload, and on success patch every record carrying the selected
        id with that payload and close the modal. A refused update shows the error and
        leaves the roster and the modal as they were. */
    method UpdateUser(token: Option<string>, reply: Reply) returns (outcome: UpdateOutcome)
      requires Valid()
      modifies this`users, this`showUpdateUserModal, this`requests, this`dialogs
      ensures Valid()
      ensures !IsValidSelection(selectedUser) ==>
        outcome == InvalidSelection && users == old(users) &&
        showUpdateUserModal == old(showUpdateUserModal) && requests == old(requests) &&
        dialogs == old(dialogs) + [InvalidSelectionDialog]
      ensures IsValidSelection(selectedUser) && !HasToken(token) ==>
        outcome == TokenMissing && users == old(users) &&
        showUpdateUserModal == old(showUpdateUserModal) && requests == old(requests) &&
        dialogs == old(dialogs) + [TokenMissingDialog]
      ensures IsValidSelection(selectedUser) && HasToken(token) ==>
        var id := Get(selectedUser.value, "user_id");
        var payload := UpdatePayload(updatedUser);
        requests == old(requests) + [PutUser(id, payload)] &&
        match reply
        case Accepted =>
          outcome == Updated && users == MergeById(old(users), id, payload) &&
          !showUpdateUserModal && dialogs == old(dialogs) + [UpdatedDialog]
        case Refused(message) =>
          outcome == UpdateFailed && users == old(users) &&
          showUpdateUserModal == old(showUpdateUserModal) &&
          dialogs == old(dialogs) + [UpdateFailedDialog(message)]
    {
      if !IsValidSelection(selectedUser) {
        dialogs := dialogs + [InvalidSelectionDialog];
        return InvalidSelection;
      }
      var payload := UpdatePayload(updatedUser);
      if !HasToken(token) {
        dialogs := dialogs + [TokenMissingDialog];
        return TokenMissing;
      }
      var id := Get(selectedUser.value, "user_id");
      requests := requests + [PutUser(id, payload)];
      match reply
      case Refused(message) =>
        dialogs := dialogs + [UpdateFailedDialog(message)];
        outcome := UpdateFailed;
      case Accepted =>
        dialogs := dialogs + [UpdatedDialog];
        users := MergeById(users, id, payload);
        showUpdateUserModal := false;
        outcome := Updated;
    }
  }

  // ---------------------------------------------------------------------------
  // Properties of the update workflow

  /** An update submitted without touching the seeded draft sends no password and
      leaves the cached record reading as it did. */
  lemma UneditedUpdateIsNoOp(user: Record)
    ensures "password" !in UpdatePayload(SeedDraft(user))
    ensures forall key :: Get(user + UpdatePayload(SeedDraft(user)), key) == Get(user, key)
  {
    var payload := UpdatePayload(SeedDraft(user));
    forall key
      ensures Get(user + payload, key) == Get(user, key)
    {
      if key == "fullname" || key == "username" {
        assert key in payload;
      } else {
        assert key !in payload;
      }
    }
  }

  /** After a successful update, a record carrying the id holds the typed password when
      one was typed, and its previously cached password (if any) otherwise. */
  lemma UpdatedRecordPassword(users: seq<Record>, id: Value, d: Draft, k: nat)
    requires k < |users| && HasId(users[k], id)
    ensures Truthy(d.password) ==>
      Get(MergeById(users, id, UpdatePayload(d))[k], "password") == d.password
    ensures !Truthy(d.password) ==>
      Get(MergeById(users, id, UpdatePayload(d))[k], "password") == Get(users[k], "password")
  {
    MergeByIdAt(users, id, UpdatePayload(d), k);
  }

  /** The selection guard, by the kind of value `user_id` holds: a non-zero number or
      `true` passes; undefined, null, false, 0, NaN and "" fail; a string passes
      exactly when it is non-empty and not NaN. */
  lemma SelectionGuardByKind(user: Record)
    ensures Get(user, "user_id").Num? ==>
      (IsValidSelection(Some(user)) <==> Get(user, "user_id").x != 0.0)
    ensures Get(user, "user_id").Bool? ==>
      (IsValidSelection(Some(user)) <==> Get(user, "user_id").b)
    ensures Get(user, "user_id") in {Undefined, Null, NaN, Str("")} ==> !IsValidSelection(Some(user))
    ensures Get(user, "user_id").Str? ==>
      (IsValidSelection(Some(user)) <==> Get(user, "user_id").s != "" && !StringIsNaN(Get(user, "user_id").s))
  {
  }

  /** An id held as a non-empty string of decimal digits passes the selection guard;
      so does one made of white space only, which ToNumber reads as 0. */
  lemma SelectionGuardOnText(user: Record, s: string)
    requires Get(user, "user_id") == Str(s) && s != []
    requires (forall k :: 0 <= k < |s| ==> IsDigitOf(s[k], Decimal)) ||
             (forall k :: 0 <= k < |s| ==> IsWhiteSpace(s[k]))
    ensures IsValidSelection(Some(user))
  {
    if forall k :: 0 <= k < |s| ==> IsDigitOf(s[k], Decimal) {
      DecimalDigitsAreNumbers(s);
    } else {
      BlankStringsAreNumbers(s);
    }
  }

  /** A row whose own id is falsy (0, "", missing) deletes the logged-in user instead. */
  lemma FalsyRowIdTargetsSessionUser(row: Record, session: Record)
    requires !Truthy(Get(row, "user_id"))
    ensures DeleteTarget(Get(row, "user_id"), Some(session)) == Some(Get(session, "user_id"))
  {
  }

  // ---------------------------------------------------------------------------
  // Client scenarios

  /** Nothing in the state keeps the modals mutually exclusive: viewing a user and then
      pressing "Add User" leaves both modals open. */
  method ModalsAreNotExclusive(user: Record) returns (d: Dashboard)
    ensures d.showViewModal && d.showAddUserModal
  {
    d := new Dashboard();
    d.View(user);
    d.OpenAdd();
  }

  /** Deleting id 5 from a roster with ids 3, 5 and 7 leaves 3 and 7, and only after the
      operator confirms. */
  method DeleteScenario(session: Record) returns (d: Dashboard)
    ensures d.users == [map["user_id" := Num(3.0)], map["user_id" := Num(7.0)]]
  {
    var r3: Record := map["user_id" := Num(3.0)];
    var r5: Record := map["user_id" := Num(5.0)];
    var r7: Record := map["user_id" := Num(7.0)];
    d := new Dashboard();
    var loaded := d.Mount(Some("token"), Some(session), Some([r3, r5, r7]));
    var declined := d.Delete(Num(5.0), false, true);
    assert d.users == [r3, r5, r7] && d.requests == [GetUsers];
    var deleted := d.Delete(Num(5.0), true, true);
    assert deleted == Deleted;
    assert !HasId(r3, Num(5.0)) && HasId(r5, Num(5.0)) && !HasId(r7, Num(5.0));
    assert [r3, r5, r7][1..] == [r5, r7] && [r5, r7][1..] == [r7] && [r7][1..] == [];
    assert RemoveById([r7], Num(5.0)) == [r7];
  }
}
