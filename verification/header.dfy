/** The logic of `src/components/layouts/Header.tsx`: the avatar initials,
    the portal title and the logout handler. */
module Header {
  import opened Wrappers
  import opened AsciiText
  import opened ListQuery
  import Session

  /** `s.split(' ')`: the pieces between single spaces, so two spaces in a
      row give an empty piece, and there is always at least one piece. */
  function Split(s: string): (r: seq<string>)
    ensures |r| >= 1
    ensures forall i :: 0 <= i < |r| ==> ' ' !in r[i]
    decreases |s|
  {
    if s == [] then [""]
    else if s[0] == ' ' then [""] + Split(s[1..])
    else
      var rest := Split(s[1..]);
      [[s[0]] + rest[0]] + rest[1..]
  }

  /** `parts.join(' ')`. */
  function JoinSpaces(parts: seq<string>): string
    requires |parts| >= 1
    decreases |parts|
  {
    if |parts| == 1 then parts[0] else parts[0] + " " + JoinSpaces(parts[1..])
  }

  /** Splitting and joining again gives the name back. */
  lemma {:induction false} SplitJoinRoundTrip(s: string)
    ensures JoinSpaces(Split(s)) == s
    decreases |s|
  {
    if s == [] {
    } else if s[0] == ' ' {
      SplitJoinRoundTrip(s[1..]);
      assert Split(s)[1..] == Split(s[1..]);
      assert s == " " + s[1..];
    } else {
      SplitJoinRoundTrip(s[1..]);
      var rest := Split(s[1..]);
      if |rest| == 1 {
        assert s == [s[0]] + rest[0];
      } else {
        assert Split(s)[1..] == rest[1..];
        assert JoinSpaces(rest) == rest[0] + " " + JoinSpaces(rest[1..]);
        assert s == [s[0]] + (rest[0] + " " + JoinSpaces(rest[1..]));
      }
    }
  }

  /** `.map(part => part.charAt(0)).join('')`: the first character of each
      non-empty piece. */
  function FirstChars(parts: seq<string>): string
    decreases |parts|
  {
    if parts == [] then ""
    else (if |parts[0]| > 0 then [parts[0][0]] else "") + FirstChars(parts[1..])
  }

  /** A reference definition of the same characters, read straight off the
      name: every non-space character at the start or right after a space.
      `atStart` says whether the previous character was a space (or there was
      none). */
  function StartsAfter(s: string, atStart: bool): string
    decreases |s|
  {
    if s == [] then ""
    else (if atStart && s[0] != ' ' then [s[0]] else "") + StartsAfter(s[1..], s[0] == ' ')
  }

  /** The pieces' first characters are exactly the word starts of the name;
      with `atStart` false, the pieces after the first one give the word
      starts after the first space. */
  lemma {:induction false} FirstCharsAreWordStarts(s: string, atStart: bool)
    ensures atStart ==> FirstChars(Split(s)) == StartsAfter(s, true)
    ensures !atStart ==> FirstChars(Split(s)[1..]) == StartsAfter(s, false)
    decreases |s|
  {
    if s == [] {
      assert Split(s)[1..] == [];
    } else {
      var rest := Split(s[1..]);
      if s[0] == ' ' {
        FirstCharsAreWordStarts(s[1..], true);
        assert Split(s)[1..] == rest;
        assert FirstChars(Split(s)) == FirstChars(rest);
      } else {
        FirstCharsAreWordStarts(s[1..], false);
        assert Split(s)[1..] == rest[1..];
        assert FirstChars(Split(s)) == [s[0]] + FirstChars(rest[1..]);
      }
    }
  }

  /** Word starts are characters of the name, and never spaces. */
  lemma {:induction false} StartsWithin(s: string, atStart: bool)
    ensures forall c :: c in StartsAfter(s, atStart) ==> c in s && c != ' '
    decreases |s|
  {
    if s != [] {
      StartsWithin(s[1..], s[0] == ' ');
    }
  }

  /** `getInitials(name)`: the upper-cased first characters of the words,
      at most two of them. */
  function GetInitials(name: string): (r: string)
    ensures |r| <= 2
    ensures r == Upper(StartsAfter(name, true))[..Min(2, |StartsAfter(name, true)|)]
    ensures forall i :: 0 <= i < |r| ==> !IsLowerLetter(r[i]) && r[i] != ' '
  {
    var firsts := FirstChars(Split(name));
    var joined := Upper(firsts);
    FirstCharsAreWordStarts(name, true);
    StartsWithin(name, true);
    assert forall i :: 0 <= i < |joined| ==> joined[i] != ' ' by {
      forall i | 0 <= i < |joined|
        ensures joined[i] != ' '
      {
        assert firsts[i] in firsts;
        assert LowerChar(joined[i]) == LowerChar(firsts[i]);
      }
    }
    joined[..Min(2, |joined|)]
  }

  /** A two-word name gives both capitals; extra spaces change nothing. */
  lemma InitialsOfFullName()
    ensures GetInitials("John Doe") == "JD"
    ensures GetInitials("") == ""
  {
    assert StartsAfter("e", false) == "";
    assert StartsAfter("oe", false) == "";
    assert StartsAfter("Doe", true) == "D";
    assert StartsAfter(" Doe", false) == "D";
    assert StartsAfter("n Doe", false) == "D";
    assert StartsAfter("hn Doe", false) == "D";
    assert StartsAfter("ohn Doe", false) == "D";
    assert StartsAfter("John Doe", true) == "JD";
    assert Upper("JD") == "JD";
  }

  /** The avatar text: the initials of a signed-in user, "U" otherwise. */
  function AvatarText(user: Option<Session.User>): (r: string)
    ensures user.None? ==> r == "U"
    ensures user.Some? ==> r == GetInitials(user.value.name)
  {
    if user.Some? then GetInitials(user.value.name) else "U"
  }

  /** The header title: "Admin Portal" only for the role spelled "admin". */
  function Title(user: Option<Session.User>): (r: string)
    ensures r == "Admin Portal" <==> user.Some? && user.value.role == "admin"
    ensures r != "Admin Portal" ==> r == "User Dashboard"
  {
    if user.Some? && user.value.role == "admin" then "Admin Portal" else "User Dashboard"
  }

  /** `handleLogout`: sign out, then go to the login page. */
  function HandleLogout(w: Session.World): (r: (Session.World, string))
    ensures r.0 == Session.Logout(w)
    ensures r.1 == "/login"
    ensures !r.0.state.isAuthenticated && Title(r.0.state.user) == "User Dashboard"
  {
    (Session.Logout(w), "/login")
  }
}
