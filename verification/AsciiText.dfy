/** Trimming and case folding of ASCII strings, where JavaScript and Rust agree. */
module AsciiText {
  predicate IsSpace(c: char) {
    c == ' ' || 9 as char <= c <= 13 as char
  }

  predicate HasSpace(s: string) {
    exists i | 0 <= i < |s| :: IsSpace(s[i])
  }

  predicate IsUpper(c: char) {
    'A' <= c <= 'Z'
  }

  predicate IsLower(c: char) {
    'a' <= c <= 'z'
  }

  predicate IsDigit(c: char) {
    '0' <= c <= '9'
  }

  function TrimStart(s: string): (r: string)
    ensures |r| <= |s| && r == s[|s| - |r|..]
    ensures r != [] ==> !IsSpace(r[0])
  {
    if s != [] && IsSpace(s[0]) then TrimStart(s[1..]) else s
  }

  function TrimEnd(s: string): (r: string)
    ensures |r| <= |s| && r == s[..|r|]
    ensures r != [] ==> !IsSpace(r[|r| - 1])
    ensures r == [] <==> forall c | c in s :: IsSpace(c)
  {
    if s == [] then s
    else if IsSpace(s[|s| - 1]) then
      var r := TrimEnd(s[..|s| - 1]);
      assert forall c | c in s :: c in s[..|s| - 1] || c == s[|s| - 1];
      r
    else
      assert s[|s| - 1] in s;
      s
  }

  function Trim(s: string): string {
    TrimEnd(TrimStart(s))
  }

  predicate IsTrimmed(s: string) {
    s != [] ==> !IsSpace(s[0]) && !IsSpace(s[|s| - 1])
  }

  lemma TrimResult(s: string)
    ensures IsTrimmed(Trim(s))
    ensures forall c | c in Trim(s) :: c in s
  {
    var t := TrimStart(s);
    var r := TrimEnd(t);
    if r != [] {
      assert r[0] == t[0];
    }
    forall c | c in r ensures c in s {
      assert c in t[..|r|];
      assert c in s[|s| - |t|..];
    }
  }

  /** The blanks, one by one: space, tab, line feed, vertical tab, form feed, carriage return. */
  lemma Blanks(c: char)
    ensures IsSpace(c) <==> c == ' ' || c == '\t' || c == '\n' || c == '\U{0B}' || c == '\U{0C}' || c == '\r'
  {
  }

  /** Trimming takes blanks off both ends and nothing else. */
  lemma TrimTakesBlanks(s: string) returns (i: nat, j: nat)
    ensures i <= j <= |s| && Trim(s) == s[i..j] && IsTrimmed(Trim(s))
    ensures forall k | 0 <= k < i || j <= k < |s| :: IsSpace(s[k])
  {
    hide TrimStart, TrimEnd, IsSpace;
    var t := TrimStart(s);
    i := |s| - |t|;
    j := i + |Trim(s)|;
    TrimResult(s);
    StartIsBlank(s);
    EndIsBlank(t);
    assert t == s[i..] && Trim(s) == t[..|Trim(s)|];
    forall k | j <= k < |s| ensures IsSpace(s[k]) {
      assert s[k] == t[k - i];
    }
  }

  lemma {:induction false} StartIsBlank(s: string)
    ensures forall i | 0 <= i < |s| - |TrimStart(s)| :: IsSpace(s[i])
  {
    if s != [] && IsSpace(s[0]) {
      StartIsBlank(s[1..]);
      assert forall i | 1 <= i < |s| :: s[i] == s[1..][i - 1];
    }
  }

  lemma {:induction false} EndIsBlank(s: string)
    ensures forall i | |TrimEnd(s)| <= i < |s| :: IsSpace(s[i])
  {
    if s != [] && IsSpace(s[|s| - 1]) {
      EndIsBlank(s[..|s| - 1]);
    }
  }

  lemma TrimOfTrimmed(s: string)
    requires IsTrimmed(s)
    ensures Trim(s) == s
  {
  }

  /** A name that trimming and the refusal of inner blanks leave as it is. */
  predicate UsableName(w: string) {
    w != [] && !HasSpace(w)
  }

  lemma UsableIsTrimmed(w: string)
    ensures UsableName(w) ==> Trim(w) == w
  {
    if UsableName(w) {
      TrimOfTrimmed(w);
    }
  }

  lemma TrimIdempotent(s: string)
    ensures Trim(Trim(s)) == Trim(s)
  {
    TrimResult(s);
    TrimOfTrimmed(Trim(s));
  }

  function LowerChar(c: char): char {
    if IsUpper(c) then (c as int + 32) as char else c
  }

  function ToLower(s: string): (r: string)
    ensures |r| == |s| && forall i | 0 <= i < |s| :: r[i] == LowerChar(s[i])
  {
    if s == [] then [] else [LowerChar(s[0])] + ToLower(s[1..])
  }

  lemma LowerOfLower(s: string)
    requires forall c | c in s :: !IsUpper(c)
    ensures ToLower(s) == s
  {
  }
}
