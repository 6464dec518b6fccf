/** User-data printed when an instance is requested, and the host name read back when it is provisioned. */
module CloudInit {
  import opened Wrappers
  import opened Text

  datatype Data = Data(
    hostname: string, username: string, sshPublicKey: string,
    packages: seq<string>, runCommands: seq<string>)

  /** One list item per value, each on its own line. */
  function Items(values: seq<string>): seq<string> {
    if values == [] then [] else ["  - " + values[0]] + Items(values[1..])
  }

  function BodyLines(input: Data): seq<string> {
    ["users:",
     "  - name: " + input.username,
     "    sudo: ALL=(ALL) NOPASSWD:ALL",
     "    shell: /bin/bash",
     "    ssh_authorized_keys:",
     "      - " + input.sshPublicKey,
     "package_update: true",
     "packages:"] + Items(input.packages) + ["runcmd:"] + Items(input.runCommands)
  }

  function Body(input: Data): string {
    Unlines(BodyLines(input))
  }

  const HEADER: string := "#cloud-config"
  const KEY: string := "hostname:"

  function RenderUserData(input: Data): Option<string> {
    if input.hostname == "" || input.username == "" || input.sshPublicKey == "" then None
    else Some(HEADER + "\n" + (KEY + " " + input.hostname + "\n" + Body(input)))
  }

  /** The value of the first line that carries the key, as a function of the lines. */
  function FirstHostname(lines: seq<string>): string {
    if lines == [] then ""
    else
      var s := TrimSpace(lines[0]);
      if HasPrefix(s, KEY) then TrimSpace(s[|KEY|..]) else FirstHostname(lines[1..])
  }

  method HostnameFromUserData(userData: string) returns (hostname: string)
    ensures hostname == FirstHostname(SplitLines(userData))
  {
    var lines := SplitLines(userData);
    for i := 0 to |lines|
      invariant FirstHostname(lines) == FirstHostname(lines[i..])
    {
      var s := TrimSpace(lines[i]);
      assert lines[i..][0] == lines[i] && lines[i..][1..] == lines[i + 1..];
      if HasPrefix(s, KEY) {
        return TrimSpace(s[|KEY|..]);
      }
    }
    return "";
  }

  lemma HeaderIsNoKey()
    ensures TrimSpace(HEADER) == HEADER && !HasPrefix(HEADER, KEY)
  {
  }

  /** A key line gives back the trimmed value, also when the value is blank. */
  lemma KeyLine(value: string)
    ensures var s := TrimSpace(KEY + " " + value);
      HasPrefix(s, KEY) && TrimSpace(s[|KEY|..]) == TrimSpace(value)
  {
    var line := KEY + " " + value;
    assert line[0] == KEY[0];
    assert TrimLeft(line) == line;
    assert line == KEY + (" " + value);
    TrimRightKeepsPrefix(KEY, " " + value);
    var rest := TrimRight(" " + value);
    assert (KEY + rest)[|KEY|..] == rest;
    TrimLeftOfTrimRight(" " + value);
    assert TrimLeft(" " + value) == TrimLeft(value) by {
      assert (" " + value)[1..] == value;
    }
    TrimRightTwice(TrimLeft(value));
    assert TrimLeft(rest) == TrimSpace(value);
  }

  lemma {:induction false} TrimRightTwice(s: string)
    ensures TrimRight(TrimRight(s)) == TrimRight(s)
  {
    if s != [] && IsSpace(s[|s| - 1]) {
      TrimRightTwice(s[..|s| - 1]);
    }
  }

  lemma {:induction false} SplitAtFirstLine(s: string, rest: string)
    ensures SplitLines(s + "\n" + rest) != []
    ensures SplitLines(s + "\n" + rest)[0] == FirstLine(s)
  {
    FirstLineOfPrefix(s, rest);
  }

  lemma {:induction false} FirstLineOfPrefix(s: string, rest: string)
    ensures FirstLine(s + "\n" + rest) == FirstLine(s)
  {
    var t := s + "\n" + rest;
    if s == [] {
      assert t[0] == '\n';
    } else {
      assert t[0] == s[0] && t[1..] == s[1..] + "\n" + rest;
      FirstLineOfPrefix(s[1..], rest);
    }
  }

  lemma {:induction false} FirstLineAfter(p: string, s: string)
    requires '\n' !in p
    ensures FirstLine(p + s) == p + FirstLine(s)
  {
    if p == [] {
      assert p + s == s;
    } else {
      assert (p + s)[1..] == p[1..] + s;
      FirstLineAfter(p[1..], s);
    }
  }

  /** Whatever the other fields contain, the host name read back is the trimmed first line of the one given. */
  lemma HostnameReadBack(input: Data)
    requires RenderUserData(input).Some?
    ensures FirstHostname(SplitLines(RenderUserData(input).value)) == TrimSpace(FirstLine(input.hostname))
  {
    hide Body, TrimSpace;
    var rest := KEY + " " + input.hostname + "\n" + Body(input);
    HeaderIsNoKey();
    SplitAtNewline(HEADER, rest);
    var lines := SplitLines(rest);
    assert ([HEADER] + lines)[1..] == lines;
    assert FirstHostname([HEADER] + lines) == FirstHostname(lines);
    SplitAtFirstLine(KEY + " " + input.hostname, Body(input));
    FirstLineAfter(KEY + " ", input.hostname);
    assert lines[0] == KEY + " " + FirstLine(input.hostname);
    KeyLine(FirstLine(input.hostname));
  }

  lemma {:induction false} FirstLineWithoutNewline(s: string)
    requires '\n' !in s
    ensures FirstLine(s) == s
  {
    if s != [] {
      FirstLineWithoutNewline(s[1..]);
    }
  }

  /** The round trip for host names of one line. */
  lemma HostnameRoundTrip(input: Data)
    requires RenderUserData(input).Some? && '\n' !in input.hostname
    ensures FirstHostname(SplitLines(RenderUserData(input).value)) == TrimSpace(input.hostname)
  {
    HostnameReadBack(input);
    FirstLineWithoutNewline(input.hostname);
  }

  // ---- Host names of several lines -----------------------------------------------------------

  /** What stands after the first line, from its newline on. */
  function Remainder(s: string): string {
    if s == [] || s[0] == '\n' then s else Remainder(s[1..])
  }

  lemma {:induction false} FirstLineAndRemainder(s: string)
    ensures FirstLine(s) + Remainder(s) == s
    ensures '\n' !in FirstLine(s)
    ensures Remainder(s) != [] ==> Remainder(s)[0] == '\n'
  {
    if s == [] || s[0] == '\n' {
      assert FirstLine(s) == [] && Remainder(s) == s;
    } else {
      var t := s[1..];
      FirstLineAndRemainder(t);
      assert FirstLine(s) == [s[0]] + FirstLine(t) && Remainder(s) == Remainder(t);
      hide FirstLine, Remainder;
      assert s == [s[0]] + t;
    }
  }

  lemma {:induction false} TrimmedIsPart(s: string)
    ensures forall c :: c in TrimLeft(s) ==> c in s
    ensures forall c :: c in TrimRight(s) ==> c in s
  {
    if s != [] {
      if IsSpace(s[0]) {
        TrimmedIsPart(s[1..]);
      }
      if IsSpace(s[|s| - 1]) {
        TrimmedIsPart(s[..|s| - 1]);
      }
    }
  }

  lemma TrimmedFirstLine(s: string)
    ensures TrimSpace(FirstLine(s)) == TrimSpace(s) <==> Blank(Remainder(s))
  {
    var line, rest := FirstLine(s), Remainder(s);
    FirstLineAndRemainder(s);
    TrimLeftOfTrimRight(s);
    TrimLeftOfTrimRight(line);
    if Blank(rest) {
      TrimRightDropsBlank(line, rest);
    } else {
      TrimRightStopsAtVisible(line, rest);
      var visible := TrimRight(rest);
      TrimLeftStopsAtVisible(line, visible);
      TrimmedIsPart(line);
      TrimmedIsPart(TrimLeft(line));
      if Blank(line) {
        TrimLeftKeepsVisible(visible);
      } else {
        assert visible[0] == '\n';
        assert '\n' in TrimLeft(line) + visible;
      }
    }
  }

  /** The host name survives exactly when nothing but white space follows its first line. */
  lemma HostnameSurvivesExactly(input: Data)
    requires RenderUserData(input).Some?
    ensures FirstHostname(SplitLines(RenderUserData(input).value)) == TrimSpace(input.hostname)
            <==> Blank(Remainder(input.hostname))
  {
    HostnameReadBack(input);
    TrimmedFirstLine(input.hostname);
  }

  /** For example, the second line of this one is lost. */
  lemma HostnameWithNewlineIsCut(input: Data)
    requires input.hostname == "a\nb" && input.username != "" && input.sshPublicKey != ""
    ensures RenderUserData(input).Some?
    ensures FirstHostname(SplitLines(RenderUserData(input).value)) != TrimSpace(input.hostname)
  {
    assert RenderUserData(input).Some?;
    hide RenderUserData, FirstHostname, SplitLines, TrimSpace;
    HostnameSurvivesExactly(input);
    SecondLineIsVisible(input.hostname);
  }

  lemma SecondLineIsVisible(h: string)
    requires h == "a\nb"
    ensures !Blank(Remainder(h))
  {
    assert h[1..][0] == '\n' && Remainder(h[1..]) == h[1..];
    assert Remainder(h) == h[1..];
    assert h[1..][1] == 'b' && 'b' in h[1..] && !IsSpace('b');
  }

  // ---- Reading everything back -----------------------------------------------------------------------------

  predicate OneLine(s: string) {
    '\n' !in s
  }

  function WithoutPrefix(s: string, p: string): string {
    if p <= s then s[|p|..] else ""
  }

  /** The leading list items, and the lines after them. */
  function TakeItems(lines: seq<string>): (seq<string>, seq<string>) {
    if lines == [] || !("  - " <= lines[0]) then ([], lines)
    else
      var (values, rest) := TakeItems(lines[1..]);
      ([WithoutPrefix(lines[0], "  - ")] + values, rest)
  }

  /** Reads the fields from where the format puts them. */
  function ReadUserData(userData: string): Option<Data> {
    var lines := SplitLines(userData);
    if |lines| < 10 || lines[0] != "#cloud-config" || lines[2] != "users:" || lines[9] != "packages:" then None
    else
      var (packages, rest) := TakeItems(lines[10..]);
      if rest == [] || rest[0] != "runcmd:" then None
      else
        var (runCommands, end) := TakeItems(rest[1..]);
        if end != [""] then None
        else
          Some(Data(WithoutPrefix(lines[1], "hostname: "), WithoutPrefix(lines[3], "  - name: "),
                    WithoutPrefix(lines[7], "      - "), packages, runCommands))
  }

  lemma {:induction false} TakesItems(values: seq<string>, rest: seq<string>)
    requires rest != [] && !("  - " <= rest[0])
    ensures TakeItems(Items(values) + rest) == (values, rest)
  {
    var lines := Items(values) + rest;
    if values == [] {
      assert lines == rest;
    } else {
      assert lines[0] == "  - " + values[0] && lines[1..] == Items(values[1..]) + rest;
      TakesItems(values[1..], rest);
      assert values == [values[0]] + values[1..];
    }
  }

  lemma {:induction false} ItemsAreLines(values: seq<string>)
    requires forall v :: v in values ==> OneLine(v)
    ensures forall l :: l in Items(values) ==> OneLine(l)
  {
    if values != [] {
      assert values[0] in values;
      ItemsAreLines(values[1..]);
    }
  }

  predicate AllOneLine(input: Data) {
    && OneLine(input.hostname) && OneLine(input.username) && OneLine(input.sshPublicKey)
    && (forall v :: v in input.packages ==> OneLine(v)) && (forall v :: v in input.runCommands ==> OneLine(v))
  }

  lemma FieldLine(prefix: string, value: string)
    requires OneLine(prefix) && OneLine(value)
    ensures OneLine(prefix + value)
  {
  }

  lemma FixedLines()
    ensures OneLine("users:") && OneLine("    shell: /bin/bash") && OneLine("    ssh_authorized_keys:")
    ensures OneLine("package_update: true") && OneLine("packages:") && OneLine("runcmd:")
  {
  }

  lemma SudoLine()
    ensures OneLine("    sudo: ALL=(ALL) NOPASSWD:ALL")
  {
  }

  lemma BodyIsLines(input: Data)
    requires AllOneLine(input)
    ensures forall l :: l in BodyLines(input) ==> OneLine(l)
  {
    ItemsAreLines(input.packages);
    ItemsAreLines(input.runCommands);
    FixedLines();
    SudoLine();
    assert OneLine("  - name: ") && OneLine("      - ");
    FieldLine("  - name: ", input.username);
    FieldLine("      - ", input.sshPublicKey);
    hide OneLine, Items;
  }

  lemma RenderedLines(input: Data)
    requires RenderUserData(input).Some? && AllOneLine(input)
    ensures SplitLines(RenderUserData(input).value) == [HEADER, KEY + " " + input.hostname] + BodyLines(input) + [""]
  {
    var first := KEY + " " + input.hostname;
    BodyIsLines(input);
    FieldLine(KEY + " ", input.hostname);
    hide BodyLines, Items, SplitLines;
    SplitOfUnlines(BodyLines(input));
    SplitAtNewline(HEADER, first + "\n" + Body(input));
    SplitAtNewline(first, Body(input));
  }

  /** The lines as the format has them. */
  lemma LinesRead(lines: seq<string>, hostname: string, username: string, key: string, packages: seq<string>, runCommands: seq<string>)
    requires |lines| > 10 && lines[0] == "#cloud-config" && lines[1] == "hostname: " + hostname && lines[2] == "users:"
    requires lines[3] == "  - name: " + username && lines[7] == "      - " + key && lines[9] == "packages:"
    requires lines[10..] == Items(packages) + (["runcmd:"] + (Items(runCommands) + [""]))
    ensures TakeItems(lines[10..]) == (packages, ["runcmd:"] + (Items(runCommands) + [""]))
    ensures TakeItems((["runcmd:"] + (Items(runCommands) + [""]))[1..]) == (runCommands, [""])
  {
    var tail := ["runcmd:"] + (Items(runCommands) + [""]);
    assert tail[0][0] == 'r' && "  - "[0] == ' ';
    TakesItems(packages, tail);
    assert tail[1..] == Items(runCommands) + [""];
    TakesItems(runCommands, [""]);
  }

  /** User data is refused exactly without one of three fields; otherwise, from fields of one line, all five are read back. */
  lemma UserDataRoundTrip(input: Data)
    ensures RenderUserData(input).None? <==> input.hostname == "" || input.username == "" || input.sshPublicKey == ""
    ensures RenderUserData(input).Some? && AllOneLine(input) ==> ReadUserData(RenderUserData(input).value) == Some(input)
  {
    if RenderUserData(input).Some? && AllOneLine(input) {
      var lines := SplitLines(RenderUserData(input).value);
      RenderedLines(input);
      assert KEY + " " == "hostname: ";
      hide SplitLines, RenderUserData, Items, TakeItems;
      var tail := ["runcmd:"] + (Items(input.runCommands) + [""]);
      assert lines[10..] == Items(input.packages) + tail;
      LinesRead(lines, input.hostname, input.username, input.sshPublicKey, input.packages, input.runCommands);
    }
  }
}
