/** Domain names the hypervisor accepts, made from arbitrary instance names. */
module HostNames {

  predicate SafeChar(c: char) {
    'a' <= c <= 'z' || 'A' <= c <= 'Z' || '0' <= c <= '9' || c == '-' || c == '_'
  }

  function SafeText(name: string): string {
    if name == [] then [] else [if SafeChar(name[0]) then name[0] else '-'] + SafeText(name[1..])
  }

  function TrimDashesLeft(s: string): string {
    if s != [] && s[0] == '-' then TrimDashesLeft(s[1..]) else s
  }

  function TrimDashesRight(s: string): string {
    if s != [] && s[|s| - 1] == '-' then TrimDashesRight(s[..|s| - 1]) else s
  }

  const MAX_NAME := 200

  function Sanitized(name: string): string {
    var out := TrimDashesRight(TrimDashesLeft(SafeText(name)));
    if out == "" then "instance"
    else if |out| > MAX_NAME then out[..MAX_NAME]
    else out
  }

  method SanitizeLibvirtName(name: string) returns (out: string)
    ensures out == Sanitized(name)
  {
    var b: string := "";
    for i := 0 to |name|
      invariant b + SafeText(name[i..]) == SafeText(name)
    {
      assert name[i..][0] == name[i] && name[i..][1..] == name[i + 1..];
      b := b + [if SafeChar(name[i]) then name[i] else '-'];
    }
    assert b == SafeText(name);
    out := TrimDashesRight(TrimDashesLeft(b));
    if out == "" {
      return "instance";
    }
    if |out| > MAX_NAME {
      out := out[..MAX_NAME];
    }
  }

  lemma {:induction false} SafeTextIsSafe(name: string)
    ensures forall c :: c in SafeText(name) ==> SafeChar(c)
  {
    if name != [] {
      SafeTextIsSafe(name[1..]);
    }
  }

  lemma {:induction false} TrimLeftIsPart(s: string)
    ensures forall c :: c in TrimDashesLeft(s) ==> c in s
  {
    if s != [] && s[0] == '-' {
      TrimLeftIsPart(s[1..]);
    }
  }

  lemma {:induction false} TrimRightIsPart(s: string)
    ensures forall c :: c in TrimDashesRight(s) ==> c in s
    ensures TrimDashesRight(s) <= s
  {
    if s != [] && s[|s| - 1] == '-' {
      TrimRightIsPart(s[..|s| - 1]);
    }
  }

  lemma {:induction false} TrimLeftStart(s: string)
    ensures TrimDashesLeft(s) != [] ==> TrimDashesLeft(s)[0] != '-'
  {
    if s != [] && s[0] == '-' {
      TrimLeftStart(s[1..]);
    }
  }

  /** A sanitised name is never empty, never longer than the limit, made of safe characters, and starts with no dash. */
  lemma SanitizedIsSafe(name: string)
    ensures var out := Sanitized(name);
      && 0 < |out| <= MAX_NAME
      && out[0] != '-'
      && forall c :: c in out ==> SafeChar(c)
  {
    var safe := SafeText(name);
    SafeTextIsSafe(name);
    TrimLeftIsPart(safe);
    TrimLeftStart(safe);
    TrimRightIsPart(TrimDashesLeft(safe));
    var instance := "instance";
    forall i | 0 <= i < |instance| ensures SafeChar(instance[i]) {
    }
  }

  /** Different instance names can share a domain name, so uniqueness of names inside a project is not enough. */
  lemma SanitizingIsNotInjective()
    ensures "a b" != "a-b" && Sanitized("a b") == Sanitized("a-b")
  {
  }

  // ---- What becomes of each character --------------------------------------------------------------------

  /** Characters that stand for themselves in a domain name and are not cut off at its ends. */
  predicate Kept(c: char) {
    'a' <= c <= 'z' || 'A' <= c <= 'Z' || '0' <= c <= '9' || c == '_'
  }

  function Shown(c: char): char {
    if Kept(c) then c else '-'
  }

  lemma {:induction false} SafeTextAt(name: string)
    ensures |SafeText(name)| == |name| && forall k :: 0 <= k < |name| ==> SafeText(name)[k] == Shown(name[k])
  {
    if name != [] {
      SafeTextAt(name[1..]);
    }
  }

  lemma {:induction false} DashesLeft(s: string)
    ensures |TrimDashesLeft(s)| <= |s| && TrimDashesLeft(s) == s[|s| - |TrimDashesLeft(s)|..]
    ensures forall k :: 0 <= k < |s| - |TrimDashesLeft(s)| ==> s[k] == '-'
  {
    if s != [] && s[0] == '-' {
      DashesLeft(s[1..]);
    }
  }

  lemma {:induction false} DashesRight(s: string)
    ensures TrimDashesRight(s) <= s
    ensures forall k :: |TrimDashesRight(s)| <= k < |s| ==> s[k] == '-'
    ensures TrimDashesRight(s) != [] ==> TrimDashesRight(s)[|TrimDashesRight(s)| - 1] != '-'
  {
    if s != [] && s[|s| - 1] == '-' {
      DashesRight(s[..|s| - 1]);
    }
  }

  /** What is left of a text between its first and its last character that is no dash. */
  lemma TrimmedPart(s: string)
    ensures var out := TrimDashesRight(TrimDashesLeft(s)); var a := |s| - |TrimDashesLeft(s)|;
      && 0 <= a <= a + |out| <= |s| && out == s[a..a + |out|]
      && (forall k :: 0 <= k < a || a + |out| <= k < |s| ==> s[k] == '-')
      && (out != [] ==> out[0] != '-' && out[|out| - 1] != '-')
  {
    var left := TrimDashesLeft(s);
    var a := |s| - |left|;
    DashesLeft(s);
    TrimLeftStart(s);
    DashesRight(left);
    hide TrimDashesLeft, TrimDashesRight;
    assert forall k :: a <= k < |s| ==> s[k] == left[k - a];
  }

  /** The name shows the part from `a` up to `b`, cut at 200 characters; only dashes would come before and after. */
  predicate Shows(out: string, name: string, a: int, b: int) {
    && 0 <= a < b <= |name| && Kept(name[a]) && Kept(name[b - 1])
    && (forall k :: 0 <= k < |name| && !(a <= k < b) ==> !Kept(name[k]))
    && |out| == (if b - a > 200 then 200 else b - a)
    && (forall k :: 0 <= k < |out| ==> out[k] == Shown(name[a + k]))
  }

  /** A domain name shows its name from the first kept character to the last, and is "instance" when there is none. */
  lemma SanitizedShows(name: string)
    ensures (exists a, b :: Shows(Sanitized(name), name, a, b))
            || (Sanitized(name) == "instance" && forall k :: 0 <= k < |name| ==> !Kept(name[k]))
  {
    var safe := SafeText(name);
    var out := TrimDashesRight(TrimDashesLeft(safe));
    var a := |safe| - |TrimDashesLeft(safe)|;
    SafeTextAt(name);
    TrimmedPart(safe);
    hide SafeText, TrimDashesLeft, TrimDashesRight;
    if out != "" {
      assert out[0] == safe[a] && out[|out| - 1] == safe[a + |out| - 1];
      assert Shows(Sanitized(name), name, a, a + |out|);
    }
  }
}
