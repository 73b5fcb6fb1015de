/**
 * The authentication context: the signed-in `user` and the copy of it the
 * browser keeps under the storage key "user". The copy is read back when the
 * provider mounts, written on login and removed on logout.
 */
module AuthContext {
  import opened Wrappers
  import opened Seqs
  import opened Auth

  /** `SAMPLE_USERS.find((u) => u.email === email)`. */
  function FindByEmail(users: seq<User>, email: string): (r: Option<User>)
    ensures r.None? <==> forall u :: u in users ==> u.email != email
    ensures r.Some? ==> r.value in users && r.value.email == email
    ensures r.Some? ==> exists i :: 0 <= i < |users| && users[i] == r.value && forall j :: 0 <= j < i ==> users[j].email != email
  {
    FindFirst((u: User) => u.email == email, users)
  }

  /** With distinct emails, looking up a user's email finds exactly that user. */
  lemma {:induction false} FindByEmailFindsOwner(users: seq<User>, u: User)
    requires forall p, q :: 0 <= p < q < |users| ==> users[p].email != users[q].email
    requires u in users
    ensures FindByEmail(users, u.email) == Some(u)
  {
    var r := FindByEmail(users, u.email);
    var k :| 0 <= k < |users| && users[k] == u;
    var m :| 0 <= m < |users| && users[m] == r.value && forall j :: 0 <= j < m ==> users[j].email != u.email;
    if m < k {
      assert users[m].email != users[k].email;
    }
  }

  /** Every sample account can sign in with its own email. */
  lemma SampleUsersCanSignIn(u: User)
    requires u in SampleUsers
    ensures FindByEmail(SampleUsers, u.email) == Some(u)
  {
    SampleUsersDistinct();
    FindByEmailFindsOwner(SampleUsers, u);
  }

  class AuthProvider {
    /** The signed-in user (`null` when signed out). */
    var user: Option<User>
    /** The browser's stored "user" entry. */
    var stored: Option<User>

    /** The session and its stored copy agree. */
    predicate Synced()
      reads this
    {
      stored == user
    }

    /** A fresh provider starts signed out; storage may still hold an earlier session. */
    constructor(persisted: Option<User>)
      ensures user == None && stored == persisted
    {
      user := None;
      stored := persisted;
    }

    /** The mount effect: a stored session is restored, otherwise nothing changes. */
    method Restore()
      modifies this
      ensures stored == old(stored)
      ensures old(stored).Some? ==> user == old(stored) && Synced()
      ensures old(stored).None? ==> user == old(user)
    {
      if stored.Some? {
        user := stored;
      }
    }

    /**
     * `login(email, password)`: signs in the sample account with that email,
     * whatever the password, and stores it; an unknown email changes nothing.
     */
    method Login(email: string, password: string) returns (ok: bool)
      modifies this
      ensures ok <==> exists u :: u in SampleUsers && u.email == email
      ensures ok ==> user == FindByEmail(SampleUsers, email) && user.value.email == email && Synced()
      ensures !ok ==> user == old(user) && stored == old(stored)
    {
      var found := FindByEmail(SampleUsers, email);
      if found.Some? {
        user := found;
        stored := found;
        ok := true;
      } else {
        ok := false;
      }
    }

    /** `logout()`: signs out and removes the stored copy. */
    method Logout()
      modifies this
      ensures user == None && stored == None
      ensures Synced()
    {
      user := None;
      stored := None;
    }
  }

  /** After a login, a remount restores the same session. */
  method LoginSurvivesRemount(email: string, password: string) returns (ok: bool, again: AuthProvider)
    ensures ok ==> again.user.Some? && again.user.value.email == email
    ensures !ok ==> again.user == None
  {
    var p := new AuthProvider(None);
    ok := p.Login(email, password);
    again := new AuthProvider(p.stored);
    again.Restore();
  }

  /** Signing out twice leaves the same state as signing out once. */
  method LogoutIdempotent(p: AuthProvider)
    modifies p
    ensures p.user == None && p.stored == None
  {
    p.Logout();
    var u1, s1 := p.user, p.stored;
    p.Logout();
    assert p.user == u1 && p.stored == s1;
  }

  /** The password never affects the outcome: two attempts with the same email agree. */
  method PasswordIgnored(p: AuthProvider, email: string, pw1: string, pw2: string) returns (ok1: bool, ok2: bool)
    modifies p
    ensures ok1 == ok2
  {
    ok1 := p.Login(email, pw1);
    var u1 := p.user;
    ok2 := p.Login(email, pw2);
    assert ok2 ==> p.user == u1;
  }
}
