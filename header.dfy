/** The site header: avatar initials, the navigation links and the admin
    entry of the account menu. */
module Header {
  import opened Wrappers
  import opened Records
  import opened Text
  import opened Seqs

  /** `${s[0]}`: the first character, or the text "undefined" when `s` is
      empty. */
  function FirstCharText(s: string): (r: string)
    ensures |s| > 0 ==> r == [s[0]]
    ensures |s| == 0 ==> r == "undefined"
  {
    if |s| > 0 then [s[0]] else "undefined"
  }

  /** `s.substring(0, 2)`. */
  function Take2(s: string): (r: string)
    ensures |r| == (if |s| < 2 then |s| else 2) && r == s[..|r|]
  {
    if |s| < 2 then s else s[..2]
  }

  /** `getInitials(email)` for a user with `displayName`, as written: the
      pieces of `split(' ')` are used even when empty. */
  function GetInitials(email: Option<string>, displayName: Option<string>): (r: string)
    ensures email.None? || email == Some("") ==> r == "U"
  {
    if email.None? || email.value == "" then "U"
    else if displayName.Some? && displayName.value != "" then
      var parts := Split(displayName.value, " ");
      if |parts| > 1 then ToUpper(FirstCharText(parts[0]) + FirstCharText(parts[1]))
      else ToUpper(Take2(displayName.value))
    else ToUpper(Take2(email.value))
  }

  /** The cases the header relies on: a name of several non-empty parts
      gives the first letters of the first two, a one-part name its first
      two characters, no name the first two characters of the e-mail. */
  lemma GetInitialsCases(email: string, displayName: Option<string>)
    requires email != ""
    ensures displayName.None? || displayName == Some("") ==> GetInitials(Some(email), displayName) == ToUpper(Take2(email))
    ensures displayName.Some? && displayName.value != "" && ' ' !in displayName.value ==>
              GetInitials(Some(email), displayName) == ToUpper(Take2(displayName.value))
    ensures displayName.Some? && displayName.value != "" && ' ' in displayName.value ==>
              var parts := Split(displayName.value, " ");
              |parts| > 1 && (|parts[0]| > 0 && |parts[1]| > 0 ==>
                GetInitials(Some(email), displayName) == ToUpper([parts[0][0], parts[1][0]]))
  {
    if displayName.Some? && displayName.value != "" {
      SplitCharCount(displayName.value, ' ');
    }
  }

  /** A display name ending in a space makes the header show ten letters. */
  lemma TrailingSpaceInitials()
    ensures GetInitials(Some("jo@example.com"), Some("John ")) == "JUNDEFINED"
  {
    SplitJohn();
    var j := FirstCharText("John") + FirstCharText("");
    assert j == "Jundefined";
    forall i | 0 <= i < 10 ensures ToUpper(j)[i] == "JUNDEFINED"[i] {
    }
  }

  /** The corrected initials of the same user are the first two letters of
      the only word, `JO`. */
  lemma TrailingSpaceIntended()
    ensures GetInitialsIntended(Some("jo@example.com"), Some("John ")) == "JO"
  {
    SplitJohn();
    var parts: seq<string> := ["John", ""];
    assert parts[1..] == [""] && [""][1..] == [];
    assert Words("John ") == ["John"];
    assert Take2("John") == "Jo";
    assert ToUpper("Jo") == "JO";
  }

  lemma SplitJohn()
    ensures Split("John ", " ") == ["John", ""]
  {
    SplitTrailingSpace("John");
    assert "John" + " " == "John ";
  }

  /** A word without spaces followed by one space splits into the word and
      an empty piece. */
  lemma {:induction false} SplitTrailingSpace(w: string)
    requires ' ' !in w
    ensures Split(w + " ", " ") == [w, ""]
    decreases |w|
  {
    if w == [] {
      assert w + " " == " ";
      assert " "[..1] == " " && " "[1..] == "";
    } else {
      SplitTrailingSpace(w[1..]);
      assert w + " " == [w[0]] + (w[1..] + " ");
      SplitStep(w[0], w[1..] + " ", [""]);
      assert [w[0]] + w[1..] == w;
    }
  }

  /** A character that is not a space joins the first piece. */
  lemma SplitStep(c: char, s: string, tail: seq<string>)
    requires c != ' ' && |Split(s, " ")| >= 1 && Split(s, " ")[1..] == tail
    ensures Split([c] + s, " ") == [[c] + Split(s, " ")[0]] + tail
  {
    assert ([c] + s)[..1] != " " by { assert ([c] + s)[..1][0] == c; }
    assert ([c] + s)[1..] == s;
  }

  predicate NonEmptyWord(s: string) {
    |s| > 0
  }

  /** The non-empty space-separated words of a name. */
  function Words(name: string): (r: seq<string>)
    ensures forall i :: 0 <= i < |r| ==> |r[i]| > 0
  {
    Filter(Split(name, " "), NonEmptyWord)
  }

  /** The initials as evidently intended: the first letters of the first
      two words, the first two characters of a single word, and the e-mail's
      first two characters when the name has no word. */
  function GetInitialsIntended(email: Option<string>, displayName: Option<string>): (r: string)
    ensures email.None? || email == Some("") ==> r == "U"
    ensures 1 <= |r| <= 2
  {
    if email.None? || email.value == "" then "U"
    else
      var words := if displayName.Some? then Words(displayName.value) else [];
      if |words| > 1 then ToUpper([words[0][0], words[1][0]])
      else if |words| == 1 then ToUpper(Take2(words[0]))
      else ToUpper(Take2(email.value))
  }

  /** The corrected initials are always one or two characters, each an
      upper-cased character of the name or of the e-mail. */
  lemma IntendedInitialsComeFromInput(email: string, displayName: Option<string>, k: int)
    requires email != "" && 0 <= k < |GetInitialsIntended(Some(email), displayName)|
    ensures var r := GetInitialsIntended(Some(email), displayName);
      (exists j :: 0 <= j < |email| && r[k] == UpperChar(email[j])) ||
      (displayName.Some? && exists j :: 0 <= j < |displayName.value| && r[k] == UpperChar(displayName.value[j]))
  {
    var r := GetInitialsIntended(Some(email), displayName);
    var words := if displayName.Some? then Words(displayName.value) else [];
    if |words| > 1 {
      assert r[k] == UpperChar(words[k][0]);
      WordCharInName(displayName.value, k, 0);
    } else if |words| == 1 {
      assert r[k] == UpperChar(words[0][k]);
      WordCharInName(displayName.value, 0, k);
    } else {
      assert r[k] == UpperChar(email[k]);
    }
  }

  /** A character of a word is a character of the name. */
  lemma WordCharInName(name: string, i: int, j: int)
    requires 0 <= i < |Words(name)| && 0 <= j < |Words(name)[i]|
    ensures exists n :: 0 <= n < |name| && name[n] == Words(name)[i][j]
  {
    var pieces := Split(name, " ");
    FilterMembership(pieces, NonEmptyWord, Words(name)[i]);
    PieceCharInText(name, " ", Words(name)[i], j);
  }

  lemma {:induction false} PieceCharInText(s: string, sep: string, piece: string, j: int)
    requires |sep| > 0 && piece in Split(s, sep) && 0 <= j < |piece|
    ensures exists n :: 0 <= n < |s| && s[n] == piece[j]
    decreases |s|
  {
    if |s| < |sep| {
      assert piece == s;
    } else if s[..|sep|] == sep {
      if piece != "" {
        PieceCharInText(s[|sep|..], sep, piece, j);
        var n :| 0 <= n < |s[|sep|..]| && s[|sep|..][n] == piece[j];
        assert s[n + |sep|] == piece[j];
      }
    } else {
      var rest := Split(s[1..], sep);
      if piece == [s[0]] + rest[0] {
        if j == 0 {
          assert s[0] == piece[0];
        } else {
          assert rest[0] in rest;
          PieceCharInText(s[1..], sep, rest[0], j - 1);
          var n :| 0 <= n < |s[1..]| && s[1..][n] == rest[0][j - 1];
          assert s[n + 1] == piece[j];
        }
      } else {
        assert piece in rest[1..];
        assert piece in rest;
        PieceCharInText(s[1..], sep, piece, j);
        var n :| 0 <= n < |s[1..]| && s[1..][n] == piece[j];
        assert s[n + 1] == piece[j];
      }
    }
  }

  /** Where no piece of the name is empty, the correction agrees with the
      code as written. */
  lemma IntendedAgreesWithoutEmptyParts(email: string, name: string)
    requires email != "" && name != ""
    requires forall i :: 0 <= i < |Split(name, " ")| ==> |Split(name, " ")[i]| > 0
    ensures GetInitialsIntended(Some(email), Some(name)) == GetInitials(Some(email), Some(name))
  {
    var parts := Split(name, " ");
    FilterKeepsAll(parts, NonEmptyWord);
    if |parts| == 1 {
      SplitCharCount(name, ' ');
      SplitAbsentChar(name);
    }
  }

  lemma SplitAbsentChar(name: string)
    requires ' ' !in name
    ensures Split(name, " ") == [name]
  {
    forall i | 0 <= i <= |name| - 1 ensures !OccursAt(name, " ", i) {
      assert name[i..i + 1][0] == name[i] && name[i] != ' ';
    }
    SplitAbsent(name, " ");
  }

  datatype NavLink = NavLink(href: string, caption: string)

  const PublicLinks := [NavLink("/", "Home"), NavLink("/cars", "Fleet"), NavLink("/contact", "Contact")]
  const MyBookingsLink := NavLink("/my-bookings", "My Bookings")

  /** `currentNavLinks`: a signed-in user sees the public links followed by
      "My Bookings"; a guest sees the public links. */
  function CurrentNavLinks(user: Option<AppUser>): (r: seq<NavLink>)
    ensures |r| >= 3 && r[..3] == PublicLinks
    ensures MyBookingsLink in r <==> user.Some?
    ensures |r| == if user.Some? then 4 else 3
  {
    if user.Some? then PublicLinks + [MyBookingsLink] else PublicLinks
  }

  /** The "Admin Dashboard" entry of the account menu. */
  predicate AdminLinkShown(user: Option<AppUser>) {
    user.Some? && user.value.role == "admin"
  }

  /** The role the authentication context gives a signed-in user: the
      profile's role when it has a non-empty one, else "user". */
  function RoleOf(profile: Option<UserProfile>): (role: string)
    ensures profile.None? || profile.value.role == "" ==> role == "user"
  {
    if profile.Some? && profile.value.role != "" then profile.value.role else "user"
  }

  /** Only a profile whose stored role is "admin" shows the admin entry. */
  lemma AdminLinkNeedsAdminProfile(u: AppUser, profile: Option<UserProfile>)
    requires u.role == RoleOf(profile)
    ensures AdminLinkShown(Some(u)) <==> profile.Some? && profile.value.role == "admin"
  {
  }
}
