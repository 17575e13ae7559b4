/** The player-name check of the name dialog (script.js:471-490). */
module Names {

  /** The characters `String.prototype.trim` removes: white space and line terminators. */
  predicate IsJsWhitespace(c: char)
  {
    c == ' ' || c == '\t' || c == '\n' || c == '\r' || c == '\U{000B}' || c == '\U{000C}' ||
    c == '\U{00A0}' || c == '\U{1680}' || ('\U{2000}' <= c <= '\U{200A}') ||
    c == '\U{2028}' || c == '\U{2029}' || c == '\U{202F}' || c == '\U{205F}' ||
    c == '\U{3000}' || c == '\U{FEFF}'
  }

  /** Drops the leading white space: the result is a suffix of `s` that does not start
      with white space, and everything dropped was white space. */
  function TrimStart(s: string): (r: string)
    ensures |r| <= |s| && r == s[|s| - |r|..]
    ensures r != [] ==> !IsJsWhitespace(r[0])
    ensures forall i :: 0 <= i < |s| - |r| ==> IsJsWhitespace(s[i])
  {
    if s != [] && IsJsWhitespace(s[0]) then TrimStart(s[1..]) else s
  }

  /** Drops the trailing white space: the result is a prefix of `s` that does not end
      with white space, and everything dropped was white space. */
  function TrimEnd(s: string): (r: string)
    ensures |r| <= |s| && r == s[..|r|]
    ensures r != [] ==> !IsJsWhitespace(r[|r| - 1])
    ensures forall i :: |r| <= i < |s| ==> IsJsWhitespace(s[i])
  {
    if s != [] && IsJsWhitespace(s[|s| - 1]) then TrimEnd(s[..|s| - 1]) else s
  }

  function Trim(s: string): string
  {
    TrimEnd(TrimStart(s))
  }

  /** A string with no white space at either end is its own trim. */
  lemma TrimOfTrimmed(s: string)
    requires s != [] ==> !IsJsWhitespace(s[0]) && !IsJsWhitespace(s[|s| - 1])
    ensures Trim(s) == s
  {
  }

  /** Trimming twice is trimming once. */
  lemma TrimIsIdempotent(s: string)
    ensures Trim(Trim(s)) == Trim(s)
  {
    var t := Trim(s);
    if t != [] {
      assert t == TrimStart(s)[..|t|];
      assert !IsJsWhitespace(t[0]);
    }
    TrimOfTrimmed(t);
  }

  /** `[a-zA-Z]` */
  predicate IsAsciiLetter(c: char)
  {
    ('a' <= c <= 'z') || ('A' <= c <= 'Z')
  }

  /** `/^[a-zA-Z]+$/.test(s)` */
  predicate IsLettersOnly(s: string)
  {
    |s| > 0 && forall i :: 0 <= i < |s| ==> IsAsciiLetter(s[i])
  }

  /** `toUpperCase` on an ASCII letter. */
  function ToUpperLetter(c: char): (u: char)
    requires IsAsciiLetter(c)
    ensures 'A' <= u <= 'Z'
    ensures 'A' <= c <= 'Z' ==> u == c
    ensures 'a' <= c <= 'z' ==> u as int == c as int - 32
  {
    if 'a' <= c <= 'z' then (c as int - 32) as char else c
  }

  /** Every character is a capital letter. */
  predicate IsCapitals(s: string)
  {
    forall i :: 0 <= i < |s| ==> 'A' <= s[i] <= 'Z'
  }

  /** `u` is `s.toUpperCase()` for a string `s` of ASCII letters: each letter is
      upper-cased in its place. */
  predicate IsUpperCaseOf(u: string, s: string)
  {
    |u| == |s| && forall i :: 0 <= i < |s| ==> IsAsciiLetter(s[i]) && u[i] == ToUpperLetter(s[i])
  }

  function ToUpperLetters(s: string): (u: string)
    requires IsLettersOnly(s)
    ensures |u| == |s| && IsLettersOnly(u)
    ensures forall i :: 0 <= i < |s| ==> u[i] == ToUpperLetter(s[i])
    ensures IsCapitals(u) && IsUpperCaseOf(u, s)
  {
    seq(|s|, i requires 0 <= i < |s| => ToUpperLetter(s[i]))
  }

  const EmptyNameMessage: string := "Please enter your name!"
  const LettersOnlyMessage: string := "Only letters allowed!"

  datatype NameCheck = Accepted(name: string) | Rejected(message: string)

  /** Trims the input; an empty result is refused first, then anything that is not
      ASCII letters only; an accepted name is upper-cased. */
  function ValidateName(input: string): (r: NameCheck)
    ensures r == Rejected(EmptyNameMessage) <==> Trim(input) == []
    ensures r == Rejected(LettersOnlyMessage) <==> Trim(input) != [] && !IsLettersOnly(Trim(input))
    ensures r.Accepted? <==> IsLettersOnly(Trim(input))
    ensures r.Accepted? ==> IsLettersOnly(r.name) && |r.name| == |Trim(input)|
    ensures r.Accepted? ==> IsCapitals(r.name) && IsUpperCaseOf(r.name, Trim(input))
  {
    var name := Trim(input);
    if name == [] then Rejected(EmptyNameMessage)
    else if !IsLettersOnly(name) then Rejected(LettersOnlyMessage)
    else Accepted(ToUpperLetters(name))
  }

  /** An accepted name passes the check again unchanged. */
  lemma AcceptedNameIsStable(input: string)
    requires ValidateName(input).Accepted?
    ensures ValidateName(ValidateName(input).name) == ValidateName(input)
  {
    UpperCaseNameIsAccepted(ValidateName(input).name);
  }

  /** A non-empty name of capital letters is accepted as it is. */
  lemma UpperCaseNameIsAccepted(n: string)
    requires IsLettersOnly(n) && IsCapitals(n)
    ensures ValidateName(n) == Accepted(n)
  {
    LettersAreNotTrimmed(n);
  }

  /** "John3" is refused for its digit. */
  lemma NameWithDigitIsRejected()
    ensures ValidateName("John3") == Rejected(LettersOnlyMessage)
  {
    var s := "John3";
    assert Trim(s) == s by {
      assert !IsJsWhitespace(s[0]) && !IsJsWhitespace(s[4]);
      TrimOfTrimmed(s);
    }
    assert !IsLettersOnly(s) by {
      assert !IsAsciiLetter(s[4]);
    }
  }

  /** "john" is accepted and stored as "JOHN". */
  lemma LowerCaseNameIsUpperCased()
    ensures ValidateName("john") == Accepted("JOHN")
  {
    LettersAreNotTrimmed("john");
    JohnUpperCased();
  }

  /** A name of letters only has nothing to trim. */
  lemma LettersAreNotTrimmed(s: string)
    requires IsLettersOnly(s)
    ensures Trim(s) == s
  {
    assert !IsJsWhitespace(s[0]) && !IsJsWhitespace(s[|s| - 1]);
    TrimOfTrimmed(s);
  }

  lemma JohnUpperCased()
    ensures ToUpperLetters("john") == "JOHN"
  {
    var u := ToUpperLetters("john");
    assert u[0] == 'J' && u[1] == 'O' && u[2] == 'H' && u[3] == 'N';
  }

  /** Blank input is refused as empty before any letter check. */
  lemma BlankNameIsEmpty()
    ensures ValidateName(" \t ") == Rejected(EmptyNameMessage)
  {
    assert " \t "[1..] == "\t ";
    assert "\t "[1..] == " ";
    assert TrimStart(" ") == "";
  }
}
