/** The `User` entity: its six fields, its three constructors, `toString` and the
    password-free copy `asSessionUser` that is kept in a user's session. */
module Users {
  import opened JavaLang

  /** The values of a user's fields at one moment. */
  datatype UserFields = UserFields(
    id: Long,
    userName: Nullable<string>,
    firstName: Nullable<string>,
    lastName: Nullable<string>,
    email: Nullable<string>,
    password: Nullable<string>)

  /** The fields a session copy of `f` has: all of them but the password, which is null. */
  function SessionView(f: UserFields): (r: UserFields)
    ensures r.password == Null
    ensures r.(password := f.password) == f
  {
    UserFields(f.id, f.userName, f.firstName, f.lastName, f.email, Null)
  }

  /** Taking the session copy of a session copy changes nothing. */
  lemma SessionViewIdempotent(f: UserFields)
    ensures SessionView(SessionView(f)) == SessionView(f)
  {
  }

  /** The text `toString` produces for a user with fields `f`. */
  function Render(f: UserFields): string {
    RenderUpToPassword(f) + ValueOf(f.password)
  }

  /** Everything `toString` writes before the password itself. */
  function RenderUpToPassword(f: UserFields): string {
    "ID: " + LongToString(f.id) +
    "\nUser Name: " + ValueOf(f.userName) +
    "\nFirst Name: " + ValueOf(f.firstName) +
    "\nLast Name: " + ValueOf(f.lastName) +
    "\nEmail: " + ValueOf(f.email) +
    "\nPassword: "
  }

  /** The rendering opens with the ID line and ends with the password line. */
  lemma RenderFraming(f: UserFields)
    ensures Render(f) == RenderUpToPassword(f) + ValueOf(f.password)
    ensures Render(f)[..4] == "ID: "
    ensures |Render(f)| > 4 + |LongToString(f.id)|
    ensures Render(f)[4..][..|LongToString(f.id)| + 1] == LongToString(f.id) + "\n"
  {
    var id := LongToString(f.id);
    var head := "ID: " + id + "\nUser Name: ";
    var a1 := head + ValueOf(f.userName);
    var a2 := a1 + "\nFirst Name: ";
    var a3 := a2 + ValueOf(f.firstName);
    var a4 := a3 + "\nLast Name: ";
    var a5 := a4 + ValueOf(f.lastName);
    var a6 := a5 + "\nEmail: ";
    var a7 := a6 + ValueOf(f.email);
    var a8 := a7 + "\nPassword: ";
    assert a8 == RenderUpToPassword(f);
    PrefixOfAppend(head, ValueOf(f.userName), head);
    PrefixOfAppend(a1, "\nFirst Name: ", head);
    PrefixOfAppend(a2, ValueOf(f.firstName), head);
    PrefixOfAppend(a3, "\nLast Name: ", head);
    PrefixOfAppend(a4, ValueOf(f.lastName), head);
    PrefixOfAppend(a5, "\nEmail: ", head);
    PrefixOfAppend(a6, ValueOf(f.email), head);
    PrefixOfAppend(a7, "\nPassword: ", head);
    PrefixOfAppend(a8, ValueOf(f.password), head);
    var rest := id + "\nUser Name: ";
    assert head == "ID: " + rest;
    assert head[4..] == rest;
    assert rest[..|id| + 1] == id + "\n";
  }

  /** A prefix of `x` stays a prefix once something is appended to `x`. */
  lemma PrefixOfAppend(x: string, y: string, p: string)
    requires |p| <= |x| && x[..|p|] == p
    ensures (x + y)[..|p|] == p
  {
    assert (x + y)[..|p|] == x[..|p|];
  }

  /** A prefix of `s` that is a line with no break in it, then a break, fixes that line:
      two such prefixes of the same text are equal. */
  lemma {:induction false} SameFirstLine(s: string, x: string, y: string)
    requires '\n' !in x && '\n' !in y
    requires |x| < |s| && s[..|x| + 1] == x + "\n"
    requires |y| < |s| && s[..|y| + 1] == y + "\n"
    ensures x == y
  {
    assert forall i :: 0 <= i < |x| ==> s[i] != '\n' by {
      forall i | 0 <= i < |x| ensures s[i] != '\n' { assert s[i] == x[i] && x[i] in x; }
    }
    assert forall i :: 0 <= i < |y| ==> s[i] != '\n' by {
      forall i | 0 <= i < |y| ensures s[i] != '\n' { assert s[i] == y[i] && y[i] in y; }
    }
    assert s[|x|] == '\n' && s[|y|] == '\n';
    assert x == s[..|x|] == y;
  }

  /** The rendering identifies the user's ID: two users rendered alike have the same ID. */
  lemma RenderDeterminesId(f: UserFields, g: UserFields)
    requires Render(f) == Render(g)
    ensures f.id == g.id
  {
    var x, y := LongToString(f.id), LongToString(g.id);
    LongToStringHasNoNewline(f.id);
    LongToStringHasNoNewline(g.id);
    RenderFraming(f);
    RenderFraming(g);
    SameFirstLine(Render(f)[4..], x, y);
    LongToStringInjective(f.id, g.id);
  }

  /** The session copy renders like the original with its password text replaced by "null";
      so the two renderings agree exactly when the password is null or the text "null". */
  lemma SessionRenderHidesPassword(f: UserFields)
    ensures Render(SessionView(f)) == Render(f)[..|Render(f)| - |ValueOf(f.password)|] + "null"
    ensures Render(SessionView(f)) == Render(f) <==> f.password == Null || f.password == Ref("null")
  {
    var s := SessionView(f);
    RenderFraming(f);
    RenderFraming(s);
    var head := RenderUpToPassword(f);
    assert RenderUpToPassword(s) == head;
    assert Render(f)[..|Render(f)| - |ValueOf(f.password)|] == head;
    if Render(s) == Render(f) {
      assert ValueOf(f.password) == Render(f)[|head|..] == Render(s)[|head|..] == "null";
    }
  }

  /** A user as the entity class holds it; Lombok's getters and setters are plain field reads
      and writes of these fields. */
  class User {
    var id: Long
    var userName: Nullable<string>
    var firstName: Nullable<string>
    var lastName: Nullable<string>
    var email: Nullable<string>
    var password: Nullable<string>

    /** The current values of the fields. */
    function Fields(): UserFields
      reads this
    {
      UserFields(id, userName, firstName, lastName, email, password)
    }

    /** The default constructor: every field keeps Java's default, 0 or null. */
    constructor Default()
      ensures Fields() == UserFields(0, Null, Null, Null, Null, Null)
    {
      id, userName, firstName, lastName, email, password := 0, Null, Null, Null, Null, Null;
    }

    /** The constructor taking all required attributes: it sets the five named fields and
        leaves the ID at its default 0. */
    constructor (userName: Nullable<string>, firstName: Nullable<string>, lastName: Nullable<string>,
                 email: Nullable<string>, password: Nullable<string>)
      ensures Fields() == UserFields(0, userName, firstName, lastName, email, password)
    {
      this.id := 0;
      this.userName := userName;
      this.firstName := firstName;
      this.lastName := lastName;
      this.email := email;
      this.password := password;
    }

    /** The constructor for session users: it sets the ID and the four names and never
        assigns the password, which therefore stays null. */
    constructor Session(id: Long, userName: Nullable<string>, firstName: Nullable<string>,
                        lastName: Nullable<string>, email: Nullable<string>)
      ensures Fields() == UserFields(id, userName, firstName, lastName, email, Null)
    {
      this.id := id;
      this.userName := userName;
      this.firstName := firstName;
      this.lastName := lastName;
      this.email := email;
      this.password := Null;
    }

    /** `toString`; what it writes is described by `Render` and the lemmas about it. */
    function ToString(): string
      reads this
    {
      Render(Fields())
    }

    /** A new user with this user's fields except the password, which is null; this user,
        its password included, is left as it was. */
    method AsSessionUser() returns (s: User)
      ensures fresh(s)
      ensures s.Fields() == SessionView(Fields())
      ensures s.password == Null && s.Fields().(password := password) == Fields()
      ensures unchanged(this)
    {
      s := new User.Session(id, userName, firstName, lastName, email);
    }
  }

  /** Taking the session copy twice gives a third object with the same fields as the first
      copy, and both copies leave the original untouched. */
  method SessionUserTwice(u: User) returns (once: User, twice: User)
    ensures fresh(once) && fresh(twice) && once != twice
    ensures twice.Fields() == once.Fields() == SessionView(u.Fields())
    ensures unchanged(u)
  {
    once := u.AsSessionUser();
    twice := once.AsSessionUser();
    SessionViewIdempotent(u.Fields());
  }
}
