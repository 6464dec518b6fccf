/** Disk fragments of a domain's XML, and the scanner that picks the next free data disk letter. */
module DiskTargets {
  import opened Wrappers
  import opened Text
  import opened XmlEscape

  const DISK_TAG: string := "<disk type='file' device='disk'>"
  const DRIVER_NAME: string := "<driver name='qemu' type='qcow2'"
  const DRIVER_REST: string := " discard='unmap'/>"
  const SOURCE_OPEN: string := "<source file='"
  const DISK_OPEN: string := DISK_TAG + DRIVER_NAME + DRIVER_REST + SOURCE_OPEN
  const DISK_MIDDLE: string := "'/><target dev='"
  const DISK_CLOSE: string := "' bus='virtio'/></disk>"

  /** The fragment handed to the hypervisor when a volume is attached. */
  function VirtioDiskXml(absPath: string, targetDev: string): string {
    DISK_OPEN + XmlEscapeAttr(absPath) + DISK_MIDDLE + XmlEscapeAttr(targetDev) + DISK_CLOSE
  }

  function TargetDev(letter: char): string {
    ['v', 'd', letter]
  }

  // ---- The scanner: every leftmost, non-overlapping match of <target dev='(vd[a-z])' ---------

  const TARGET_OPEN: string := "<target dev='vd"
  const MATCH_LENGTH := 17

  predicate MatchesTarget(s: string) {
    && |s| >= MATCH_LENGTH
    && TARGET_OPEN <= s
    && 'a' <= s[15] <= 'z'
    && s[16] == '\''
  }

  function ScanTargets(s: string): seq<char>
    decreases |s|
  {
    if s == [] then []
    else if MatchesTarget(s) then [s[15]] + ScanTargets(s[MATCH_LENGTH..])
    else ScanTargets(s[1..])
  }

  function Used(xml: string): set<char> {
    set c | c in ScanTargets(xml)
  }

  predicate IsLeastUnused(used: set<char>, letter: char) {
    && 'b' <= letter <= 'z' && letter !in used
    && forall c :: 'b' <= c < letter ==> c in used
  }

  /** Picks the first letter from b to z that no target of the XML uses. */
  method NextVirtioDataDiskTarget(xml: string) returns (target: Option<char>)
    ensures target.Some? ==> IsLeastUnused(Used(xml), target.value)
    ensures target.None? <==> forall c :: 'b' <= c <= 'z' ==> c in Used(xml)
  {
    var used: set<char> := {};
    var matches := ScanTargets(xml);
    for i := 0 to |matches|
      invariant used == set c | c in matches[..i]
    {
      assert matches[..i + 1] == matches[..i] + [matches[i]];
      used := used + {matches[i]};
    }
    assert matches[..|matches|] == matches;
    var r := 'b' as int;
    while r <= 'z' as int
      invariant 'b' as int <= r <= 'z' as int + 1
      invariant forall c :: 'b' <= c <= 'z' && c as int < r ==> c in used
    {
      if r as char !in used {
        return Some(r as char);
      }
      r := r + 1;
    }
    return None;
  }

  // ---- Printing and scanning agree ------------------------------------------------------------

  /** A disk as printed: any path, and the letter of its target. */
  datatype PrintedDisk = PrintedDisk(path: string, letter: char)

  function DisksXml(disks: seq<PrintedDisk>): string {
    if disks == [] then []
    else VirtioDiskXml(disks[0].path, TargetDev(disks[0].letter)) + DisksXml(disks[1..])
  }

  function Letters(disks: seq<PrintedDisk>): (ls: seq<char>)
    ensures |ls| == |disks| && forall i :: 0 <= i < |ls| ==> ls[i] == disks[i].letter
  {
    if disks == [] then [] else [disks[0].letter] + Letters(disks[1..])
  }

  /** Text inside which no target element can begin, whatever follows. */
  predicate NoTarget(s: string) {
    forall i :: 0 <= i < |s| && s[i] == '<' ==> i + 1 < |s| && s[i + 1] != 't'
  }

  lemma NoTargetConcat(a: string, b: string)
    requires NoTarget(a) && NoTarget(b)
    ensures NoTarget(a + b)
  {
  }

  lemma MatchStart(s: string)
    ensures MatchesTarget(s) ==> s[0] == '<' && s[1] == 't'
  {
  }

  lemma {:induction false} ScanSkips(a: string, rest: string)
    requires NoTarget(a)
    ensures ScanTargets(a + rest) == ScanTargets(rest)
  {
    if a == [] {
      assert a + rest == rest;
    } else {
      var s := a + rest;
      assert s[1..] == a[1..] + rest;
      MatchStart(s);
      ScanSkips(a[1..], rest);
    }
  }

  lemma OpenHasNoTarget()
    ensures NoTarget(DISK_OPEN)
  {
    assert NoTarget(DISK_TAG);
    assert NoTarget(DRIVER_NAME);
    assert NoTarget(DRIVER_REST);
    assert NoTarget(SOURCE_OPEN);
    NoTargetConcat(DISK_TAG, DRIVER_NAME);
    NoTargetConcat(DISK_TAG + DRIVER_NAME, DRIVER_REST);
    NoTargetConcat(DISK_TAG + DRIVER_NAME + DRIVER_REST, SOURCE_OPEN);
  }

  lemma EscapedHasNoTarget(path: string)
    ensures NoTarget(XmlEscapeAttr(path))
  {
    AttrEscapeRoundTrip(path);
  }

  lemma {:induction false} TargetEscapesToItself(letter: char)
    requires 'a' <= letter <= 'z'
    ensures XmlEscapeAttr(TargetDev(letter)) == TargetDev(letter)
  {
    var t := TargetDev(letter);
    ReplaceAllAbsent(t, '&', "&amp;");
    ReplaceAllAbsent(t, '\'', "&apos;");
    ReplaceAllAbsent(t, '"', "&quot;");
    ReplaceAllAbsent(t, '<', "&lt;");
    ReplaceAllAbsent(t, '>', "&gt;");
  }

  lemma ScanAtTarget(letter: char, rest: string)
    requires 'a' <= letter <= 'z'
    ensures ScanTargets("<target dev='" + TargetDev(letter) + DISK_CLOSE + rest) == [letter] + ScanTargets(rest)
  {
    var tail := " bus='virtio'/></disk>";
    assert NoTarget(tail);
    var s := "<target dev='" + TargetDev(letter) + DISK_CLOSE + rest;
    assert DISK_CLOSE == "'" + tail;
    assert "<target dev='" + TargetDev(letter) == TARGET_OPEN + [letter];
    assert s == TARGET_OPEN + [letter] + "'" + (tail + rest);
    assert TARGET_OPEN <= s && s[15] == letter && s[16] == '\'';
    assert s[MATCH_LENGTH..] == tail + rest;
    ScanSkips(tail, rest);
  }

  lemma Reassociate(open: string, path: string, close: string, target: string, rest: string)
    ensures open + path + (close + target) + rest == open + (path + (close + (target + rest)))
  {
  }

  lemma ScanOneDisk(d: PrintedDisk, rest: string)
    requires 'a' <= d.letter <= 'z'
    ensures ScanTargets(VirtioDiskXml(d.path, TargetDev(d.letter)) + rest) == [d.letter] + ScanTargets(rest)
  {
    var esc, slash := XmlEscapeAttr(d.path), "'/>";
    var element := "<target dev='" + TargetDev(d.letter) + DISK_CLOSE;
    DiskXmlParts(d);
    Reassociate(DISK_OPEN, esc, slash, element, rest);
    OpenHasNoTarget();
    EscapedHasNoTarget(d.path);
    ScanSkips(DISK_OPEN, esc + (slash + (element + rest)));
    ScanSkips(esc, slash + (element + rest));
    ScanSkips(slash, element + rest);
    ScanAtTarget(d.letter, rest);
  }

  lemma DiskXmlParts(d: PrintedDisk)
    requires 'a' <= d.letter <= 'z'
    ensures VirtioDiskXml(d.path, TargetDev(d.letter))
         == DISK_OPEN + XmlEscapeAttr(d.path) + ("'/>" + ("<target dev='" + TargetDev(d.letter) + DISK_CLOSE))
  {
    TargetEscapesToItself(d.letter);
    assert DISK_MIDDLE == "'/>" + "<target dev='";
  }

  /** Scanning printed disks yields exactly their letters, in order, whatever the paths contain. */
  lemma {:induction false} ScanFindsPrintedLetters(disks: seq<PrintedDisk>)
    requires forall i :: 0 <= i < |disks| ==> 'a' <= disks[i].letter <= 'z'
    ensures ScanTargets(DisksXml(disks)) == Letters(disks)
  {
    if disks != [] {
      ScanFindsPrintedLetters(disks[1..]);
      ScanOneDisk(disks[0], DisksXml(disks[1..]));
    }
  }

  // ---- Any document ---------------------------------------------------------------------------------

  /** What a domain's XML consists of: virtio targets, and everything else. */
  datatype Part = Target(letter: char) | Other(text: string)

  /** Text in which no virtio target begins, whatever follows it. */
  predicate Inert(s: string) {
    forall i :: 0 <= i < |s| ==> !(TARGET_OPEN <= s[i..]) && !(s[i..] <= TARGET_OPEN)
  }

  function PartXml(p: Part): string {
    match p
    case Target(letter) => TARGET_OPEN + [letter] + "'"
    case Other(text) => text
  }

  function DocumentXml(parts: seq<Part>): string {
    if parts == [] then [] else PartXml(parts[0]) + DocumentXml(parts[1..])
  }

  function TargetLetters(parts: seq<Part>): seq<char> {
    if parts == [] then []
    else (if parts[0].Target? then [parts[0].letter] else []) + TargetLetters(parts[1..])
  }

  lemma PrefixOfConcat(t: string, a: string, rest: string)
    ensures t <= a + rest ==> t <= a || a <= t
  {
  }

  lemma {:induction false} ScanSkipsInert(a: string, rest: string)
    requires Inert(a)
    ensures ScanTargets(a + rest) == ScanTargets(rest)
  {
    if a == [] {
      assert a + rest == rest;
    } else {
      var s := a + rest;
      assert s[1..] == a[1..] + rest;
      forall i | 0 <= i < |a[1..]| ensures a[1..][i..] == a[i + 1..] {
      }
      assert a[0..] == a;
      PrefixOfConcat(TARGET_OPEN, a, rest);
      ScanSkipsInert(a[1..], rest);
    }
  }

  /** Scanning any document yields the letters of its virtio targets, in order. */
  lemma {:induction false} ScanFindsTargets(parts: seq<Part>)
    requires forall p :: p in parts ==> if p.Target? then 'a' <= p.letter <= 'z' else Inert(p.text)
    ensures ScanTargets(DocumentXml(parts)) == TargetLetters(parts)
  {
    if parts != [] {
      var rest := DocumentXml(parts[1..]);
      ScanFindsTargets(parts[1..]);
      if parts[0].Target? {
        var s := TARGET_OPEN + [parts[0].letter] + "'" + rest;
        assert TARGET_OPEN <= s && s[15] == parts[0].letter && s[16] == '\'' && s[MATCH_LENGTH..] == rest;
      } else {
        ScanSkipsInert(parts[0].text, rest);
      }
    }
  }

  const DISK_TAIL: string := " bus='virtio'/></disk>"

  function DiskHead(path: string): string {
    DISK_OPEN + (XmlEscapeAttr(path) + "'/>")
  }

  /** A printed disk is such a document: nothing in the path can begin a target. */
  lemma PrintedDiskIsDocument(d: PrintedDisk)
    requires 'a' <= d.letter <= 'z'
    ensures VirtioDiskXml(d.path, TargetDev(d.letter)) == DocumentXml([Other(DiskHead(d.path)), Target(d.letter), Other(DISK_TAIL)])
    ensures Inert(DiskHead(d.path)) && Inert(DISK_TAIL)
  {
    HeadAndTailAreInert(d.path);
    DiskXmlParts(d);
    var element := "<target dev='" + TargetDev(d.letter) + DISK_CLOSE;
    assert "<target dev='" + TargetDev(d.letter) == TARGET_OPEN + [d.letter];
    assert DISK_CLOSE == "'" + DISK_TAIL;
    assert element == TARGET_OPEN + [d.letter] + "'" + DISK_TAIL;
    ThreeParts(DiskHead(d.path), d.letter, DISK_TAIL);
    hide *;
    Regroup(DISK_OPEN, XmlEscapeAttr(d.path), "'/>", element);
  }

  lemma Regroup(a: string, b: string, c: string, d: string)
    ensures a + b + (c + d) == a + (b + c) + d
  {
  }

  lemma HeadAndTailAreInert(path: string)
    ensures Inert(DiskHead(path)) && Inert(DISK_TAIL)
  {
    OpenHasNoTarget();
    EscapedHasNoTarget(path);
    assert NoTarget("'/>") && NoTarget(DISK_TAIL);
    NoTargetConcat(XmlEscapeAttr(path), "'/>");
    NoTargetConcat(DISK_OPEN, XmlEscapeAttr(path) + "'/>");
    NoTargetIsInert(DiskHead(path));
    NoTargetIsInert(DISK_TAIL);
  }

  lemma ThreeParts(head: string, letter: char, tail: string)
    ensures DocumentXml([Other(head), Target(letter), Other(tail)]) == head + (TARGET_OPEN + [letter] + "'" + tail)
  {
    var parts := [Other(head), Target(letter), Other(tail)];
    assert parts[1..] == [Target(letter), Other(tail)] && parts[1..][1..] == [Other(tail)] && parts[1..][1..][1..] == [];
    assert DocumentXml(parts[1..][1..]) == tail + [];
  }

  lemma NoTargetIsInert(s: string)
    requires NoTarget(s)
    ensures Inert(s)
  {
    forall i | 0 <= i < |s| ensures !(TARGET_OPEN <= s[i..]) && !(s[i..] <= TARGET_OPEN) {
      assert TARGET_OPEN[0] == '<' && TARGET_OPEN[1] == 't' && s[i..][0] == s[i];
      if s[i] == '<' {
        assert s[i..][1] == s[i + 1];
      }
    }
  }

  // ---- Reading a printed disk back --------------------------------------------------------------------------

  /** What follows the first place where the marker stands. */
  function AfterMarker(s: string, marker: string): string {
    if s == [] then [] else if marker <= s then s[|marker|..] else AfterMarker(s[1..], marker)
  }

  function UntilQuote(s: string): string {
    if s == [] || s[0] == '\'' then [] else [s[0]] + UntilQuote(s[1..])
  }

  const SOURCE_MARKER: string := "<source file='"
  const TARGET_MARKER: string := "<target dev='"

  /** The decoded path and target of a disk element. */
  function ReadDisk(xml: string): (string, string) {
    var source := AfterMarker(xml, SOURCE_MARKER);
    var target := AfterMarker(source, TARGET_MARKER);
    (Decode(UntilQuote(source)), Decode(UntilQuote(target)))
  }

  /** Text in which no element begins with the letter. */
  predicate NoElement(s: string, c: char) {
    forall i :: 0 <= i < |s| && s[i] == '<' ==> i + 1 < |s| && s[i + 1] != c
  }

  lemma {:induction false} MarkerSkips(a: string, marker: string, rest: string)
    requires |marker| >= 2 && marker[0] == '<' && NoElement(a, marker[1])
    ensures AfterMarker(a + (marker + rest), marker) == rest
  {
    var s := a + (marker + rest);
    if a == [] {
      assert s == marker + rest;
      assert s != [];
    } else {
      assert s[1..] == a[1..] + (marker + rest);
      if s[0] == '<' {
        assert s[1] == a[1] && s[1] != marker[1];
      }
      assert !(marker <= s);
      MarkerSkips(a[1..], marker, rest);
    }
  }

  lemma {:induction false} QuoteEnds(a: string, rest: string)
    requires '\'' !in a
    ensures UntilQuote(a + ("'" + rest)) == a
  {
    var s := a + ("'" + rest);
    if a == [] {
      assert s[0] == '\'';
    } else {
      assert s[0] == a[0] && s[1..] == a[1..] + ("'" + rest);
      QuoteEnds(a[1..], rest);
      assert [a[0]] + a[1..] == a;
    }
  }

  lemma HeadHasNoSource()
    ensures NoElement(DISK_TAG + DRIVER_NAME + DRIVER_REST, 's')
  {
    assert NoElement(DISK_TAG, 's');
    assert NoElement(DRIVER_NAME, 's');
    assert NoElement(DRIVER_REST, 's');
  }

  lemma PathReads(path: string, rest: string)
    ensures var source := XmlEscapeAttr(path) + ("'" + rest);
      && AfterMarker(DISK_OPEN + source, SOURCE_MARKER) == source && Decode(UntilQuote(source)) == path
  {
    var head := DISK_TAG + DRIVER_NAME + DRIVER_REST;
    var source := XmlEscapeAttr(path) + ("'" + rest);
    AttrEscapeRoundTrip(path);
    HeadHasNoSource();
    hide XmlEscapeAttr, Decode, AfterMarker, UntilQuote;
    MarkerSkips(head, SOURCE_MARKER, source);
    assert head + (SOURCE_MARKER + source) == DISK_OPEN + source;
    QuoteEnds(XmlEscapeAttr(path), rest);
  }

  lemma TargetReads(path: string, target: string, rest: string)
    ensures var next := XmlEscapeAttr(target) + ("'" + rest);
      && AfterMarker(XmlEscapeAttr(path) + ("'" + ("/>" + (TARGET_MARKER + next))), TARGET_MARKER) == next
      && Decode(UntilQuote(next)) == target
  {
    var p := XmlEscapeAttr(path);
    var next := XmlEscapeAttr(target) + ("'" + rest);
    AttrEscapeRoundTrip(path);
    AttrEscapeRoundTrip(target);
    hide XmlEscapeAttr, Decode, AfterMarker, UntilQuote;
    assert p + ("'" + ("/>" + (TARGET_MARKER + next))) == (p + "'/>") + (TARGET_MARKER + next);
    MarkerSkips(p + "'/>", TARGET_MARKER, next);
    QuoteEnds(XmlEscapeAttr(target), rest);
  }

  lemma QuotesBetween()
    ensures DISK_CLOSE == "'" + DISK_TAIL && DISK_MIDDLE == "'" + ("/>" + TARGET_MARKER)
  {
  }

  lemma XmlParts(path: string, target: string)
    ensures VirtioDiskXml(path, target) == DISK_OPEN
      + (XmlEscapeAttr(path) + ("'" + ("/>" + (TARGET_MARKER + (XmlEscapeAttr(target) + ("'" + DISK_TAIL))))))
  {
    QuotesBetween();
    hide XmlEscapeAttr, DISK_OPEN, DISK_MIDDLE, DISK_CLOSE, DISK_TAIL, TARGET_MARKER;
    Regrouped(DISK_OPEN, XmlEscapeAttr(path), "'", "/>", TARGET_MARKER, XmlEscapeAttr(target), DISK_TAIL);
  }

  /** Whatever the path and the target contain, both are read back. */
  lemma DiskReadBack(path: string, target: string)
    ensures ReadDisk(VirtioDiskXml(path, target)) == (path, target)
  {
    var next := XmlEscapeAttr(target) + ("'" + DISK_TAIL);
    PathReads(path, "/>" + (TARGET_MARKER + next));
    TargetReads(path, target, DISK_TAIL);
    XmlParts(path, target);
    hide VirtioDiskXml, XmlEscapeAttr, AfterMarker, UntilQuote, Decode, DISK_OPEN, DISK_TAIL, TARGET_MARKER, SOURCE_MARKER;
  }

  lemma Regrouped(open: string, p: string, quote: string, slash: string, marker: string, t: string, tail: string)
    ensures open + p + (quote + (slash + marker)) + t + (quote + tail)
         == open + (p + (quote + (slash + (marker + (t + (quote + tail))))))
  {
  }
}
