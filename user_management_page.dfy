/**
 * The administrator's user table. It shows the stored users of `lovable.dev.users` without their
 * passwords, and adds, edits and deletes users in both lists at once. The ids (`Date.now()`) and the
 * answer to the confirmation dialog are inputs.
 */
module UserManagementPage {
  import opened Wrappers
  import opened JsStrings
  import opened AuthService
  import Collections

  // ---------------------------------------------------------------------------------------------
  // The e-mail shape `^[^\s@]+@[^\s@]+\.[^\s@]+$`
  // ---------------------------------------------------------------------------------------------

  /** `s[lo..hi]` is a run that `[^\s@]+` matches: non-empty, without whitespace or '@'. */
  predicate PartAt(s: string, lo: int, hi: int) {
    0 <= lo < hi <= |s| && forall k :: lo <= k < hi ==> !IsWhitespace(s[k]) && s[k] != '@'
  }

  /** A way `s` splits as the pattern demands: a part, '@' at `i`, a part, '.' at `j`, a part. */
  predicate PatternSplit(s: string, i: int, j: int) {
    && 0 <= i < j < |s| && s[i] == '@' && s[j] == '.'
    && PartAt(s, 0, i) && PartAt(s, i + 1, j) && PartAt(s, j + 1, |s|)
  }

  /** The regular expression matches the whole of `s`. */
  ghost predicate MatchesPattern(s: string) {
    exists i, j :: PatternSplit(s, i, j)
  }

  predicate NoWhitespace(s: string) {
    forall k :: 0 <= k < |s| ==> !IsWhitespace(s[k])
  }

  /** Index `i` holds the only '@' of `s`. */
  predicate OnlyAtSignAt(s: string, i: int) {
    0 <= i < |s| && s[i] == '@' && forall k :: 0 <= k < |s| && k != i ==> s[k] != '@'
  }

  /** After index `i` comes a '.' that is neither the first nor the last character after it. */
  predicate InnerDotAfter(s: string, i: int) {
    0 <= i && exists j :: i + 1 < j < |s| - 1 && s[j] == '.'
  }

  /** The same shape in plain terms: no whitespace, exactly one '@' and not first, and after it a '.' that is neither its first nor its last character. */
  predicate IsEmailShape(s: string) {
    NoWhitespace(s) && exists i :: 0 < i < |s| && OnlyAtSignAt(s, i) && InnerDotAfter(s, i)
  }

  /** The plain description and the regular expression accept the same strings. */
  lemma EmailShapeIsPattern(s: string)
    ensures IsEmailShape(s) <==> MatchesPattern(s)
  {
    if IsEmailShape(s) {
      var i :| 0 < i < |s| && OnlyAtSignAt(s, i) && InnerDotAfter(s, i);
      var j :| i + 1 < j < |s| - 1 && s[j] == '.';
      assert PatternSplit(s, i, j);
    }
    if MatchesPattern(s) {
      var i, j :| PatternSplit(s, i, j);
      forall k | 0 <= k < |s| && k != i ensures !IsWhitespace(s[k]) && s[k] != '@' {
        if k == j {
          assert s[k] == '.';
        }
      }
      assert OnlyAtSignAt(s, i);
      assert InnerDotAfter(s, i);
    }
  }

  lemma EmailShapeExamples()
    ensures IsEmailShape("a@b.c")
    ensures IsEmailShape("j.d@mail.co.uk")
    ensures !IsEmailShape("a@b.")
    ensures !IsEmailShape("a@.c")
    ensures !IsEmailShape("@b.c")
    ensures !IsEmailShape("a@b@c.d")
    ensures !IsEmailShape("a b@c.d")
  {
    ShortAddressAccepted();
    LongAddressAccepted();
    EmptyPartsRefused();
    StrayCharactersRefused();
  }

  lemma ShortAddressAccepted()
    ensures IsEmailShape("a@b.c")
  {
    var s := "a@b.c";
    assert OnlyAtSignAt(s, 1) && s[3] == '.';
  }

  lemma LongAddressAccepted()
    ensures IsEmailShape("j.d@mail.co.uk")
  {
    var t := "j.d@mail.co.uk";
    assert OnlyAtSignAt(t, 3) && t[8] == '.';
  }

  lemma EmptyPartsRefused()
    ensures !IsEmailShape("a@b.")
    ensures !IsEmailShape("a@.c")
    ensures !IsEmailShape("@b.c")
  {
  }

  lemma StrayCharactersRefused()
    ensures !IsEmailShape("a@b@c.d")
    ensures !IsEmailShape("a b@c.d")
  {
    assert IsWhitespace("a b@c.d"[1]);
    var u := "a@b@c.d";
    assert u[1] == '@' && u[3] == '@';
  }

  lemma ShapeIsNotBlank(s: string)
    ensures IsEmailShape(s) ==> !IsBlank(s)
  {
    if IsEmailShape(s) {
      var i :| 0 < i < |s| && OnlyAtSignAt(s, i) && InnerDotAfter(s, i);
      assert !IsWhitespace(s[0]);
    }
  }

  /**
   * `validateForm`: a blank name, then a blank e-mail, then an e-mail of the wrong shape is refused.
   * The page tests blankness as `!s.trim()`; `ValidateFormTrims` shows that this is the same test.
   */
  function ValidateForm(name: string, email: string): (r: Result<(), string>)
    ensures IsBlank(name) ==> r == Err("Name is required")
    ensures !IsBlank(name) && IsBlank(email) ==> r == Err("Email is required")
    ensures !IsBlank(name) && !IsBlank(email) && !IsEmailShape(email) ==> r == Err("Please enter a valid email address")
    ensures r.Ok? <==> !IsBlank(name) && IsEmailShape(email)
  {
    ShapeIsNotBlank(email);
    if IsBlank(name) then Err("Name is required")
    else if IsBlank(email) then Err("Email is required")
    else if !IsEmailShape(email) then Err("Please enter a valid email address")
    else Ok(())
  }

  /** The checks written with `trim()`, as on the page, give the same verdict on every form. */
  lemma ValidateFormTrims(name: string, email: string)
    ensures ValidateForm(name, email) ==
      if Trim(name) == [] then Err("Name is required")
      else if Trim(email) == [] then Err("Email is required")
      else if !IsEmailShape(email) then Err("Please enter a valid email address")
      else Ok(())
  {
    TrimEmptyIffBlank(name);
    TrimEmptyIffBlank(email);
  }

  // ---------------------------------------------------------------------------------------------
  // The two lists
  // ---------------------------------------------------------------------------------------------

  /** The password given to users an administrator adds. */
  const DefaultPassword: string := "password123"

  /** The displayed list: the stored users without their passwords. */
  function Sanitize(stored: seq<StoredUser>): (r: seq<User>)
    ensures |r| == |stored|
    ensures forall i :: 0 <= i < |stored| ==> r[i] == WithoutPassword(stored[i])
  {
    seq(|stored|, i requires 0 <= i < |stored| => WithoutPassword(stored[i]))
  }

  lemma SanitizeAppend(a: seq<StoredUser>, b: seq<StoredUser>)
    ensures Sanitize(a + b) == Sanitize(a) + Sanitize(b)
  {
  }

  /** Appending to both lists keeps the displayed list the sanitized stored list. */
  lemma AddKeepsMirror(users: seq<User>, stored: seq<StoredUser>, u: StoredUser)
    ensures users == Sanitize(stored) ==> users + [WithoutPassword(u)] == Sanitize(stored + [u])
  {
    SanitizeAppend(stored, [u]);
  }

  /** The stored side of an edit: name, e-mail and role of the matching id change, the password stays. */
  function EditStored(stored: seq<StoredUser>, id: string, name: string, email: string, role: Role): (r: seq<StoredUser>)
    ensures |r| == |stored|
    ensures forall i :: 0 <= i < |stored| && stored[i].id == id ==>
      r[i] == StoredUser(id, name, email, stored[i].password, role)
    ensures forall i :: 0 <= i < |stored| && stored[i].id != id ==> r[i] == stored[i]
  {
    seq(|stored|, i requires 0 <= i < |stored| =>
      if stored[i].id == id then stored[i].(name := name, email := email, role := role) else stored[i])
  }

  /** The displayed side of an edit: the matching users are replaced by the edited record. */
  function EditDisplayed(users: seq<User>, edited: User): (r: seq<User>)
    ensures |r| == |users|
    ensures forall i :: 0 <= i < |users| ==> r[i] == if users[i].id == edited.id then edited else users[i]
  {
    seq(|users|, i requires 0 <= i < |users| => if users[i].id == edited.id then edited else users[i])
  }

  /** An edit keeps every stored password. */
  lemma EditKeepsPasswords(stored: seq<StoredUser>, id: string, name: string, email: string, role: Role)
    ensures forall i :: 0 <= i < |stored| ==> EditStored(stored, id, name, email, role)[i].password == stored[i].password
  {
  }

  /** Editing both lists keeps the displayed list the sanitized stored list. */
  lemma EditKeepsMirror(stored: seq<StoredUser>, id: string, name: string, email: string, role: Role)
    ensures Sanitize(EditStored(stored, id, name, email, role)) == EditDisplayed(Sanitize(stored), User(id, name, email, role))
  {
  }

  function StoredId(u: StoredUser): string {
    u.id
  }

  function UserId(u: User): string {
    u.id
  }

  /** Removal from a one-element list, on both sides. */
  lemma DeleteOne(u: StoredUser, id: string)
    ensures Sanitize(Collections.RemoveKey([u], StoredId, id)) == Collections.RemoveKey([WithoutPassword(u)], UserId, id)
  {
    var ws := Collections.RemoveKey([WithoutPassword(u)], UserId, id);
    var ss := Collections.RemoveKey([u], StoredId, id);
    if u.id == id {
      assert ss == [] && ws == [];
    } else {
      assert u in ss && WithoutPassword(u) in ws;
      assert ss == [u] && ws == [WithoutPassword(u)];
    }
  }

  /** Deleting from both lists keeps the displayed list the sanitized stored list. */
  lemma {:induction false} DeleteKeepsMirror(stored: seq<StoredUser>, id: string)
    ensures Sanitize(Collections.RemoveKey(stored, StoredId, id)) == Collections.RemoveKey(Sanitize(stored), UserId, id)
    decreases |stored|
  {
    if |stored| > 0 {
      var front := stored[..|stored| - 1];
      var last := stored[|stored| - 1];
      assert stored == front + [last];
      assert Sanitize([last]) == [WithoutPassword(last)];
      calc {
        Sanitize(Collections.RemoveKey(stored, StoredId, id));
        { Collections.RemoveKeyAppend(front, [last], StoredId, id); }
        Sanitize(Collections.RemoveKey(front, StoredId, id) + Collections.RemoveKey([last], StoredId, id));
        { SanitizeAppend(Collections.RemoveKey(front, StoredId, id), Collections.RemoveKey([last], StoredId, id)); }
        Sanitize(Collections.RemoveKey(front, StoredId, id)) + Sanitize(Collections.RemoveKey([last], StoredId, id));
        { DeleteKeepsMirror(front, id); DeleteOne(last, id); }
        Collections.RemoveKey(Sanitize(front), UserId, id) + Collections.RemoveKey(Sanitize([last]), UserId, id);
        { Collections.RemoveKeyAppend(Sanitize(front), Sanitize([last]), UserId, id); }
        Collections.RemoveKey(Sanitize(front) + Sanitize([last]), UserId, id);
        { SanitizeAppend(front, [last]); }
        Collections.RemoveKey(Sanitize(stored), UserId, id);
      }
    }
  }

  /** Unlike registration, adding a user does not check the e-mail: two users can end up sharing one. */
  lemma AddCanDuplicateEmail()
    ensures !EmailsUnique(InitialUsers + [StoredUser("1", "Admin Two", "admin@certigen.com", DefaultPassword, Admin)])
  {
    var t := InitialUsers + [StoredUser("1", "Admin Two", "admin@certigen.com", DefaultPassword, Admin)];
    assert t[0].email == t[2].email;
  }

  /** The form's editable fields. */
  datatype Form = Form(name: string, email: string, role: Role)

  const EmptyForm: Form := Form([], [], Member)

  class Page {
    var users: seq<User>
    /** `lovable.dev.users`. */
    var stored: Option<seq<StoredUser>>
    var form: Form
    var selectedUser: Option<User>

    /** The displayed list is the stored list without passwords. */
    predicate Mirrors()
      reads this
    {
      users == Sanitize(stored.GetOr([]))
    }

    /** Loading the page: the stored users are shown without passwords. */
    constructor(slot: Option<seq<StoredUser>>)
      ensures stored == slot && users == Sanitize(slot.GetOr([])) && Mirrors()
      ensures form == EmptyForm && selectedUser == None
    {
      stored := slot;
      users := Sanitize(slot.GetOr([]));
      form := EmptyForm;
      selectedUser := None;
    }

    /** `handleAddUser`: an invalid form changes nothing; otherwise the user is appended to both lists with the default password. */
    method HandleAddUser(newId: string) returns (r: Result<(), string>)
      modifies this`users, this`stored, this`form
      ensures r == ValidateForm(old(form).name, old(form).email)
      ensures r.Err? ==> users == old(users) && stored == old(stored) && form == old(form)
      ensures r.Ok? ==> var f := old(form);
        && stored == Some(old(stored).GetOr([]) + [StoredUser(newId, f.name, f.email, DefaultPassword, f.role)])
        && users == old(users) + [User(newId, f.name, f.email, f.role)]
        && form == EmptyForm
      ensures old(Mirrors()) ==> Mirrors()
    {
      var f := form;
      r := ValidateForm(f.name, f.email);
      if r.Err? {
        return;
      }
      AppendUser(StoredUser(newId, f.name, f.email, DefaultPassword, f.role));
      form := EmptyForm;
    }

    /** The writes of `handleAddUser`: the record goes to storage, and without its password to the table. */
    method AppendUser(u: StoredUser)
      modifies this`users, this`stored
      ensures stored == Some(old(stored).GetOr([]) + [u])
      ensures users == old(users) + [WithoutPassword(u)]
      ensures old(Mirrors()) ==> Mirrors()
    {
      AddKeepsMirror(users, stored.GetOr([]), u);
      stored := Some(stored.GetOr([]) + [u]);
      users := users + [WithoutPassword(u)];
    }

    /** `openEditDialog`: the user is selected and copied into the form. */
    method OpenEditDialog(user: User)
      modifies this`selectedUser, this`form
      ensures selectedUser == Some(user) && form == Form(user.name, user.email, user.role)
    {
      selectedUser := Some(user);
      form := Form(user.name, user.email, user.role);
    }

    /**
     * `handleEditUser`: without a selection or with an invalid form nothing changes; otherwise both
     * lists are edited. Without a selection the page returns silently, modelled as an empty message.
     */
    method HandleEditUser() returns (r: Result<(), string>)
      modifies this`users, this`stored, this`form, this`selectedUser
      ensures old(selectedUser).None? ==> r == Err("") && users == old(users) && stored == old(stored)
      ensures old(selectedUser).Some? ==> r == ValidateForm(old(form).name, old(form).email)
      ensures r.Err? ==> users == old(users) && stored == old(stored) && form == old(form) && selectedUser == old(selectedUser)
      ensures r.Ok? ==> var f := old(form); var id := old(selectedUser).value.id;
        && stored == Some(EditStored(old(stored).GetOr([]), id, f.name, f.email, f.role))
        && users == EditDisplayed(old(users), User(id, f.name, f.email, f.role))
        && form == EmptyForm && selectedUser == None
      ensures old(Mirrors()) ==> Mirrors()
    {
      if selectedUser.None? {
        return Err("");
      }
      r := ValidateForm(form.name, form.email);
      if r.Err? {
        return;
      }
      var id := selectedUser.value.id;
      var updatedUser := selectedUser.value.(name := form.name, email := form.email, role := form.role);
      EditKeepsMirror(stored.GetOr([]), id, form.name, form.email, form.role);
      stored := Some(EditStored(stored.GetOr([]), id, form.name, form.email, form.role));
      users := EditDisplayed(users, updatedUser);
      form := EmptyForm;
      selectedUser := None;
    }

    /** `handleDeleteUser`: when confirmed, the id is removed from both lists. */
    method HandleDeleteUser(userId: string, confirmed: bool)
      modifies this`users, this`stored
      ensures !confirmed ==> users == old(users) && stored == old(stored)
      ensures confirmed ==> stored == Some(Collections.RemoveKey(old(stored).GetOr([]), StoredId, userId))
      ensures confirmed ==> users == Collections.RemoveKey(old(users), UserId, userId)
      ensures old(Mirrors()) ==> Mirrors()
    {
      if !confirmed {
        return;
      }
      DeleteKeepsMirror(stored.GetOr([]), userId);
      stored := Some(Collections.RemoveKey(stored.GetOr([]), StoredId, userId));
      users := Collections.RemoveKey(users, UserId, userId);
    }
  }
}
