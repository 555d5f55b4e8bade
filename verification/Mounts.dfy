/** The mount table decoder (src/plugins/linux.rs:364-405). */
module Mounts {
  import opened Wrappers

  newtype byte = b: int | 0 <= b < 256

  const BACKSLASH: byte := 92
  const PLUS: byte := 43

  // ---------------------------------------------------------------------
  // UTF-8
  // ---------------------------------------------------------------------

  function Utf8Char(c: char): seq<byte> {
    var n := c as int;
    if n < 0x80 then [n as byte]
    else if n < 0x800 then [(0xC0 + n / 64) as byte, (0x80 + n % 64) as byte]
    else if n < 0x10000 then
      [(0xE0 + n / 4096) as byte, (0x80 + n / 64 % 64) as byte, (0x80 + n % 64) as byte]
    else
      [(0xF0 + n / 262144) as byte, (0x80 + n / 4096 % 64) as byte, (0x80 + n / 64 % 64) as byte,
       (0x80 + n % 64) as byte]
  }

  /** `str::as_bytes`. */
  function Utf8(s: string): seq<byte> {
    if s == "" then [] else Utf8Char(s[0]) + Utf8(s[1..])
  }

  // ---------------------------------------------------------------------
  // unescape_mount
  // ---------------------------------------------------------------------

  predicate OctalDigit(b: byte) {
    48 <= b <= 55
  }

  /** `u8::from_str_radix(_, 8)` on three bytes: a leading plus sign is accepted, a value over 255 is not. */
  function ParseOctal(x: byte, y: byte, z: byte): Option<byte> {
    if (OctalDigit(x) || x == PLUS) && OctalDigit(y) && OctalDigit(z) then
      var v := (if x == PLUS then 0 else 64 * (x as int - 48)) + 8 * (y as int - 48) + (z as int - 48);
      if v < 256 then Some(v as byte) else None
    else None
  }

  /** The byte that an escape at the head of `b` stands for. */
  function EscapeAtHead(b: seq<byte>): Option<byte> {
    if |b| >= 4 && b[0] == BACKSLASH then ParseOctal(b[1], b[2], b[3]) else None
  }

  function Unescape(b: seq<byte>): seq<byte> {
    if b == [] then []
    else
      match EscapeAtHead(b)
      case Some(v) => [v] + Unescape(b[4..])
      case None => [b[0]] + Unescape(b[1..])
  }

  lemma UnescapeAt(b: seq<byte>, i: nat)
    requires i < |b|
    ensures var escaped := b[i] == BACKSLASH && i + 4 <= |b| && ParseOctal(b[i + 1], b[i + 2], b[i + 3]).Some?;
            Unescape(b[i..]) ==
            if escaped then [ParseOctal(b[i + 1], b[i + 2], b[i + 3]).value] + Unescape(b[i + 4..])
            else [b[i]] + Unescape(b[i + 1..])
  {
    var rest := b[i..];
    assert rest[1..] == b[i + 1..];
    if |rest| >= 4 { assert rest[4..] == b[i + 4..]; }
  }

  lemma Regroup(a: seq<byte>, x: byte, b: seq<byte>)
    ensures a + [x] + b == a + ([x] + b)
  {
  }

  /** The decoder loop: it ends, reads only inside its input, and never lengthens it. */
  method UnescapeMount(b: seq<byte>) returns (out: seq<byte>)
    ensures out == Unescape(b)
    ensures |out| <= |b|
  {
    out := [];
    var i := 0;
    while i < |b|
      invariant 0 <= i <= |b| && |out| <= i
      invariant out + Unescape(b[i..]) == Unescape(b)
    {
      UnescapeAt(b, i);
      if b[i] == BACKSLASH && i + 4 <= |b| && ParseOctal(b[i + 1], b[i + 2], b[i + 3]).Some? {
        var v := ParseOctal(b[i + 1], b[i + 2], b[i + 3]).value;
        Regroup(out, v, Unescape(b[i + 4..]));
        out := out + [v];
        i := i + 4;
      } else {
        Regroup(out, b[i], Unescape(b[i + 1..]));
        out := out + [b[i]];
        i := i + 1;
      }
    }
  }

  // ---------------------------------------------------------------------
  // parse_mount_options
  // ---------------------------------------------------------------------

  /** Unicode `White_Space`. */
  predicate IsWhitespace(c: char) {
    var n := c as int;
    || 9 <= n <= 13 || n == 0x20 || n == 0x85 || n == 0xA0 || n == 0x1680 || 0x2000 <= n <= 0x200A
    || n == 0x2028 || n == 0x2029 || n == 0x202F || n == 0x205F || n == 0x3000
  }

  function WordLength(s: string): (n: nat)
    ensures n <= |s|
    ensures s != "" && !IsWhitespace(s[0]) ==> n > 0
  {
    if s == "" || IsWhitespace(s[0]) then 0 else 1 + WordLength(s[1..])
  }

  /** `split_whitespace`. */
  function Words(s: string): seq<string>
    decreases |s|
  {
    if s == "" then []
    else if IsWhitespace(s[0]) then Words(s[1..])
    else [s[..WordLength(s)]] + Words(s[WordLength(s)..])
  }

  function LineLength(s: string): (n: nat)
    ensures n <= |s|
  {
    if s == "" || s[0] == '\n' then 0 else 1 + LineLength(s[1..])
  }

  function StripCr(s: string): string {
    if s != "" && s[|s| - 1] == '\r' then s[..|s| - 1] else s
  }

  /** `lines`: cut at line feeds, dropping a carriage return before one. */
  function Lines(s: string): seq<string>
    decreases |s|
  {
    var n := LineLength(s);
    if s == "" then []
    else if n == |s| then [s]
    else [StripCr(s[..n])] + Lines(s[n + 1..])
  }

  /** Second and fourth word of a line; `lossy` is `String::from_utf8_lossy`. */
  function ParseLine(line: string, lossy: seq<byte> -> string): Option<(string, string)> {
    var words := Words(line);
    if |words| < 4 then None else Some((lossy(Unescape(Utf8(words[1]))), words[3]))
  }

  function Collect(lines: seq<string>, lossy: seq<byte> -> string, found: map<string, string>): map<string, string> {
    if lines == [] then found
    else
      match ParseLine(lines[0], lossy)
      case None => Collect(lines[1..], lossy, found)
      case Some((mnt, opts)) => Collect(lines[1..], lossy, found[mnt := opts])
  }

  function ParseMountOptions(content: string, lossy: seq<byte> -> string): map<string, string> {
    Collect(Lines(content), lossy, map[])
  }

  // ---------------------------------------------------------------------
  // The table the kernel prints
  // ---------------------------------------------------------------------

  datatype Mount = Mount(device: string, point: string, fsType: string, options: string, dump: string, pass: string)

  /** Space, tab, line feed and backslash are printed as three octal digits. */
  function EscapeChar(c: char): string {
    if c == ' ' then "\\040"
    else if c == '\t' then "\\011"
    else if c == '\n' then "\\012"
    else if c == '\\' then "\\134"
    else [c]
  }

  function Escape(s: string): string {
    if s == "" then "" else EscapeChar(s[0]) + Escape(s[1..])
  }

  function PrintLine(m: Mount): string {
    m.device + " " + Escape(m.point) + " " + m.fsType + " " + m.options + " " + m.dump + " " + m.pass
  }

  function Print(ms: seq<Mount>): string {
    if ms == [] then "" else PrintLine(ms[0]) + "\n" + Print(ms[1..])
  }

  predicate IsWord(s: string) {
    s != "" && forall i :: 0 <= i < |s| ==> !IsWhitespace(s[i])
  }

  /** No whitespace but the three characters that the kernel escapes. */
  predicate Printable(point: string) {
    forall i :: 0 <= i < |point| ==> IsWhitespace(point[i]) ==> point[i] in " \t\n"
  }

  predicate GoodMount(m: Mount) {
    m.point != "" && Printable(m.point) && GoodFields(m)
  }

  predicate GoodFields(m: Mount) {
    && IsWord(m.device) && IsWord(m.fsType) && IsWord(m.options) && IsWord(m.dump) && IsWord(m.pass)
  }

  /** Mount points to options, later mounts replacing earlier ones. */
  function MountMap(ms: seq<Mount>, found: map<string, string>): map<string, string> {
    if ms == [] then found else MountMap(ms[1..], found[ms[0].point := ms[0].options])
  }

  // ---------------------------------------------------------------------
  // Decoding an escaped name
  // ---------------------------------------------------------------------

  lemma {:induction false} UnescapePlain(plain: seq<byte>, rest: seq<byte>)
    requires BACKSLASH !in plain
    ensures Unescape(plain + rest) == plain + Unescape(rest)
  {
    if plain == [] {
      assert plain + rest == rest;
    } else {
      assert (plain + rest)[1..] == plain[1..] + rest;
      UnescapePlain(plain[1..], rest);
    }
  }

  lemma UnescapeOneChar(c: char, rest: seq<byte>)
    ensures Unescape(Utf8(EscapeChar(c)) + rest) == Utf8Char(c) + Unescape(rest)
  {
    var bytes := Utf8(EscapeChar(c));
    if c in " \t\n\\" {
      EscapedBytes(c);
      assert (bytes + rest)[4..] == rest;
    } else {
      assert [c][1..] == "";
      assert bytes == Utf8Char(c) + Utf8("") == Utf8Char(c);
      UnescapePlain(bytes, rest);
    }
  }

  lemma EscapedBytes(c: char)
    requires c in " \t\n\\"
    ensures |Utf8(EscapeChar(c))| == 4 && EscapeAtHead(Utf8(EscapeChar(c))) == Some(c as int as byte)
  {
    Utf8OfFour(EscapeChar(c));
  }

  lemma Utf8OfFour(e: string)
    requires |e| == 4
    ensures Utf8(e) == Utf8Char(e[0]) + (Utf8Char(e[1]) + (Utf8Char(e[2]) + Utf8Char(e[3])))
  {
    assert e == e[..1] + e[1..] && e[1..] == e[1..2] + e[2..] && e[2..] == e[2..3] + e[3..];
    Utf8OfOne(e[..1]);
    Utf8OfOne(e[1..2]);
    Utf8OfOne(e[2..3]);
    Utf8OfOne(e[3..]);
    Utf8Append(e[..1], e[1..]);
    Utf8Append(e[1..2], e[2..]);
    Utf8Append(e[2..3], e[3..]);
  }

  lemma Utf8OfOne(e: string)
    requires |e| == 1
    ensures Utf8(e) == Utf8Char(e[0])
  {
    assert e[1..] == "";
    assert Utf8(e) == Utf8Char(e[0]) + Utf8("");
  }

  lemma {:induction false} Utf8Append(s: string, t: string)
    ensures Utf8(s + t) == Utf8(s) + Utf8(t)
  {
    if s == "" {
      assert s + t == t;
    } else {
      assert (s + t)[1..] == s[1..] + t;
      Utf8Append(s[1..], t);
    }
  }

  /** Decoding undoes escaping, for every text. */
  lemma {:induction false} UnescapeOfEscape(s: string)
    ensures Unescape(Utf8(Escape(s))) == Utf8(s)
  {
    if s != "" {
      Utf8Append(EscapeChar(s[0]), Escape(s[1..]));
      UnescapeOneChar(s[0], Utf8(Escape(s[1..])));
      UnescapeOfEscape(s[1..]);
    }
  }

  // ---------------------------------------------------------------------
  // Reading a printed line
  // ---------------------------------------------------------------------

  /** The first word does not see past a whitespace character. */
  lemma {:induction false} WordLengthOf(x: string, c: char, rest: string)
    requires IsWhitespace(c)
    ensures WordLength(x + [c] + rest) == WordLength(x)
  {
    var s := x + [c] + rest;
    if x != "" {
      assert s[1..] == x[1..] + [c] + rest;
      WordLengthOf(x[1..], c, rest);
    }
  }

  /** Words split at any whitespace character. */
  lemma {:induction false} WordsSplit(x: string, c: char, rest: string)
    requires IsWhitespace(c)
    ensures Words(x + [c] + rest) == Words(x) + Words(rest)
    decreases |x|
  {
    var s := x + [c] + rest;
    if x == "" {
      assert s[1..] == rest;
    } else if IsWhitespace(x[0]) {
      assert s[1..] == x[1..] + [c] + rest;
      WordsSplit(x[1..], c, rest);
    } else {
      var n := WordLength(x);
      WordLengthOf(x, c, rest);
      assert s[..n] == x[..n] && s[n..] == x[n..] + [c] + rest;
      WordsSplit(x[n..], c, rest);
    }
  }

  lemma {:induction false} WholeWord(w: string)
    requires forall i :: 0 <= i < |w| ==> !IsWhitespace(w[i])
    ensures WordLength(w) == |w|
  {
    if w != "" { WholeWord(w[1..]); }
  }

  lemma WordsOfWord(w: string)
    requires IsWord(w)
    ensures Words(w) == [w]
  {
    WholeWord(w);
    assert w[..|w|] == w && w[|w|..] == "";
  }

  lemma {:induction false} EscapeIsWord(s: string)
    requires Printable(s)
    ensures forall i :: 0 <= i < |Escape(s)| ==> !IsWhitespace(Escape(s)[i])
    ensures s != "" ==> Escape(s) != ""
  {
    if s != "" {
      EscapeIsWord(s[1..]);
      assert forall i :: 0 <= i < |EscapeChar(s[0])| ==> !IsWhitespace(EscapeChar(s[0])[i]);
    }
  }

  /** The words of a line are those of its six fields, whatever whitespace they hold. */
  lemma WordsOfSix(a: string, b: string, c: string, d: string, e: string, f: string)
    ensures Words(a + " " + b + " " + c + " " + d + " " + e + " " + f) ==
            Words(a) + Words(b) + Words(c) + Words(d) + Words(e) + Words(f)
  {
    var abc := a + " " + b + " " + c;
    WordsOfThree(a, b, c);
    AppendThree(abc, d, e, f);
  }

  lemma WordsOfThree(a: string, b: string, c: string)
    ensures Words(a + " " + b + " " + c) == Words(a) + Words(b) + Words(c)
  {
    WordsSplit(a, ' ', b);
    WordsSplit(a + " " + b, ' ', c);
  }

  /** Four words are enough for a line, the fourth being the options; with three it tells nothing. */
  lemma FourWordsSuffice(a: string, b: string, c: string, d: string, lossy: seq<byte> -> string)
    requires IsWord(a) && IsWord(b) && IsWord(c) && IsWord(d)
    ensures ParseLine(a + " " + b + " " + c + " " + d, lossy) == Some((lossy(Unescape(Utf8(b))), d))
    ensures ParseLine(a + " " + b + " " + c, lossy) == None
  {
    WordsOfThree(a, b, c);
    WordsSplit(a + " " + b + " " + c, ' ', d);
    WordsOfWord(a);
    WordsOfWord(b);
    WordsOfWord(c);
    WordsOfWord(d);
  }

  lemma AppendThree(x: string, d: string, e: string, f: string)
    ensures Words(x + " " + d + " " + e + " " + f) == Words(x) + Words(d) + Words(e) + Words(f)
  {
    WordsSplit(x, ' ', d);
    WordsSplit(x + " " + d, ' ', e);
    WordsSplit(x + " " + d + " " + e, ' ', f);
  }

  lemma WordsOfFields(m: Mount)
    ensures Words(PrintLine(m)) ==
            Words(m.device) + Words(Escape(m.point)) + Words(m.fsType) + Words(m.options) + Words(m.dump)
            + Words(m.pass)
  {
    WordsOfSix(m.device, Escape(m.point), m.fsType, m.options, m.dump, m.pass);
  }

  /** A field that is a word stays whole. */
  lemma WordsOfLine(m: Mount)
    requires GoodFields(m)
    ensures Words(PrintLine(m)) == [m.device] + Words(Escape(m.point)) + [m.fsType, m.options, m.dump, m.pass]
  {
    WordsOfFields(m);
    WordsOfWord(m.device);
    WordsOfWord(m.fsType);
    WordsOfWord(m.options);
    WordsOfWord(m.dump);
    WordsOfWord(m.pass);
  }

  lemma {:induction false} LineLengthOf(l: string, rest: string)
    requires forall i :: 0 <= i < |l| ==> l[i] != '\n'
    ensures LineLength(l + "\n" + rest) == |l|
  {
    var s := l + "\n" + rest;
    if l != "" {
      assert s[1..] == l[1..] + "\n" + rest;
      LineLengthOf(l[1..], rest);
    }
  }

  lemma LinesCons(l: string, rest: string)
    requires l != "" && l[|l| - 1] != '\r'
    requires forall i :: 0 <= i < |l| ==> l[i] != '\n'
    ensures Lines(l + "\n" + rest) == [l] + Lines(rest)
  {
    var s := l + "\n" + rest;
    LineLengthOf(l, rest);
    assert s[..|l|] == l && s[|l| + 1..] == rest;
  }

  lemma PrintedLineIsOneLine(m: Mount)
    requires GoodMount(m)
    ensures var l := PrintLine(m);
            l != "" && l[|l| - 1] != '\r' && forall i :: 0 <= i < |l| ==> l[i] != '\n'
  {
    EscapeIsWord(m.point);
  }

  // ---------------------------------------------------------------------
  // Main results
  // ---------------------------------------------------------------------

  /** One printed line reads back as its mount point and options. */
  lemma LineRoundTrip(m: Mount, lossy: seq<byte> -> string)
    requires GoodMount(m) && lossy(Utf8(m.point)) == m.point
    ensures ParseLine(PrintLine(m), lossy) == Some((m.point, m.options))
  {
    WordsOfLine(m);
    EscapeIsWord(m.point);
    WordsOfWord(Escape(m.point));
    UnescapeOfEscape(m.point);
  }

  lemma {:induction false} CollectOfPrint(ms: seq<Mount>, lossy: seq<byte> -> string, found: map<string, string>)
    requires forall m <- ms :: GoodMount(m) && lossy(Utf8(m.point)) == m.point
    ensures Collect(Lines(Print(ms)), lossy, found) == MountMap(ms, found)
    decreases |ms|
  {
    if ms != [] {
      PrintedLineIsOneLine(ms[0]);
      LinesCons(PrintLine(ms[0]), Print(ms[1..]));
      LineRoundTrip(ms[0], lossy);
      assert Lines(Print(ms))[1..] == Lines(Print(ms[1..]));
      CollectOfPrint(ms[1..], lossy, found[ms[0].point := ms[0].options]);
    }
  }

  /**
   * Reading a printed mount table gives back exactly its mount points and options, whatever
   * spaces, tabs, line feeds and backslashes the mount points hold.
   */
  lemma TableRoundTrip(ms: seq<Mount>, lossy: seq<byte> -> string)
    requires forall m <- ms :: GoodMount(m) && lossy(Utf8(m.point)) == m.point
    ensures ParseMountOptions(Print(ms), lossy) == MountMap(ms, map[])
  {
    CollectOfPrint(ms, lossy, map[]);
  }

  /** Mount `i` is the last one on its point. */
  ghost predicate LastOnPoint(ms: seq<Mount>, i: nat)
    requires i < |ms|
  {
    forall j :: i < j < |ms| ==> ms[j].point != ms[i].point
  }

  /** The last of several mounts on one point wins. */
  lemma {:induction false} LastMountWins(ms: seq<Mount>, found: map<string, string>, i: nat)
    requires i < |ms| && LastOnPoint(ms, i)
    ensures ms[i].point in MountMap(ms, found) && MountMap(ms, found)[ms[i].point] == ms[i].options
    decreases |ms|
  {
    var next := found[ms[0].point := ms[0].options];
    if i == 0 {
      UntouchedPoint(ms[1..], next, ms[0].point);
    } else {
      assert forall j :: i - 1 < j < |ms| - 1 ==> ms[1..][j] == ms[j + 1];
      LastMountWins(ms[1..], next, i - 1);
    }
  }

  lemma {:induction false} UntouchedPoint(ms: seq<Mount>, found: map<string, string>, point: string)
    requires forall m <- ms :: m.point != point
    ensures point in MountMap(ms, found) <==> point in found
    ensures point in found ==> MountMap(ms, found)[point] == found[point]
    decreases |ms|
  {
    if ms != [] { UntouchedPoint(ms[1..], found[ms[0].point := ms[0].options], point); }
  }

  // ---------------------------------------------------------------------
  // Against a decoder of three octal digits only
  // ---------------------------------------------------------------------

  /** The byte that three octal digits behind a backslash write out; the first is at most a three. */
  function StrictAtHead(b: seq<byte>): Option<byte> {
    if |b| >= 4 && b[0] == 92 && 48 <= b[1] <= 51 && 48 <= b[2] <= 55 && 48 <= b[3] <= 55
    then Some(((b[1] as int - 48) * 64 + (b[2] as int - 48) * 8 + (b[3] as int - 48)) as byte)
    else None
  }

  /** What the kernel's escapes call for: a backslash and three octal digits, nothing else. */
  function StrictUnescape(b: seq<byte>): seq<byte> {
    if b == [] then []
    else
      match StrictAtHead(b)
      case Some(v) => [v] + StrictUnescape(b[4..])
      case None => [b[0]] + StrictUnescape(b[1..])
  }

  /** A backslash, a plus sign and two octal digits. */
  predicate PlusEscape(b: seq<byte>, i: nat) {
    i + 4 <= |b| && b[i] == BACKSLASH && b[i + 1] == PLUS && OctalDigit(b[i + 2]) && OctalDigit(b[i + 3])
  }

  ghost predicate HasPlusEscape(b: seq<byte>) {
    exists i: nat :: PlusEscape(b, i)
  }

  lemma HasPlusEscapeLater(b: seq<byte>, n: nat)
    requires n <= |b| && forall i: nat :: i < n ==> !PlusEscape(b, i)
    ensures HasPlusEscape(b) <==> HasPlusEscape(b[n..])
  {
    if HasPlusEscape(b) {
      var i: nat :| PlusEscape(b, i);
      assert PlusEscape(b[n..], i - n);
    }
    if HasPlusEscape(b[n..]) {
      var i: nat :| PlusEscape(b[n..], i);
      assert PlusEscape(b, n + i);
    }
  }

  lemma StrictAfterPlus(b: seq<byte>)
    requires PlusEscape(b, 0)
    ensures StrictUnescape(b) == b[..4] + StrictUnescape(b[4..])
  {
    StrictSkips(b);
    StrictSkips(b[1..]);
    StrictSkips(b[2..]);
    StrictSkips(b[3..]);
    assert b[1..][1..] == b[2..] && b[2..][1..] == b[3..] && b[3..][1..] == b[4..];
    assert b[..4] == [b[0]] + [b[1]] + [b[2]] + [b[3]];
  }

  lemma StrictSkips(b: seq<byte>)
    requires b != [] && StrictAtHead(b).None?
    ensures StrictUnescape(b) == [b[0]] + StrictUnescape(b[1..])
  {
  }

  /** A plus escape decodes to its two digits, as one byte. */
  lemma PlusSignDecodes(b: seq<byte>, rest: seq<byte>)
    requires |b| == 4 && PlusEscape(b, 0)
    ensures Unescape(b + rest) == [((b[2] as int - 48) * 8 + (b[3] as int - 48)) as byte] + Unescape(rest)
  {
    assert (b + rest)[4..] == rest;
  }

  lemma {:induction false} PlusEscapesShorten(b: seq<byte>)
    ensures |Unescape(b)| <= |StrictUnescape(b)|
    ensures if HasPlusEscape(b) then |Unescape(b)| < |StrictUnescape(b)| else Unescape(b) == StrictUnescape(b)
    decreases |b|
  {
    if b == [] {
    } else if PlusEscape(b, 0) {
      PlusEscapesShorten(b[4..]);
      StrictAfterPlus(b);
      PlusSignDecodes(b[..4], b[4..]);
      assert b[..4] + b[4..] == b;
    } else if StrictAtHead(b).Some? {
      PlusEscapesShorten(b[4..]);
      HasPlusEscapeLater(b, 4);
    } else {
      PlusEscapesShorten(b[1..]);
      HasPlusEscapeLater(b, 1);
    }
  }

  /**
   * The decoder accepts more than the kernel prints: it departs from the strict decoder exactly on
   * texts that hold a backslash, a plus sign and two octal digits in a row.
   */
  lemma StrictExactlyWithoutPlus(b: seq<byte>)
    ensures Unescape(b) == StrictUnescape(b) <==> !HasPlusEscape(b)
  {
    PlusEscapesShorten(b);
  }

  /** Whitespace other than the three escaped characters. */
  predicate OtherWhitespace(c: char) {
    IsWhitespace(c) && c !in " \t\n"
  }

  /** Where the first other whitespace of a name is; its length when there is none. */
  function CutAt(s: string): (n: nat)
    ensures n <= |s|
    ensures n < |s| ==> OtherWhitespace(s[n])
    ensures Printable(s[..n])
  {
    if s == "" || OtherWhitespace(s[0]) then 0
    else
      var n := 1 + CutAt(s[1..]);
      assert forall i :: 0 <= i < n ==> s[..n][i] == (if i == 0 then s[0] else s[1..][..n - 1][i - 1]);
      n
  }

  lemma {:induction false} EscapeAppend(s: string, t: string)
    ensures Escape(s + t) == Escape(s) + Escape(t)
  {
    if s == "" {
      assert s + t == t;
    } else {
      assert (s + t)[1..] == s[1..] + t;
      EscapeAppend(s[1..], t);
    }
  }

  /** The first piece of a name that other whitespace leaves, and "" when there is none. */
  function Segment(s: string): string {
    if s == "" then ""
    else if OtherWhitespace(s[0]) then Segment(s[1..])
    else s[..CutAt(s)]
  }

  lemma {:induction false} SegmentIsPrintable(s: string)
    ensures Printable(Segment(s))
    ensures Printable(s) ==> Segment(s) == s
    ensures Segment(s) == "" ==> s == "" || OtherWhitespace(s[0])
  {
    if s != "" && OtherWhitespace(s[0]) { SegmentIsPrintable(s[1..]); }
  }

  lemma {:induction false} WordsAreWords(s: string, i: nat)
    requires i < |Words(s)|
    ensures IsWord(Words(s)[i])
    decreases |s|
  {
    if IsWhitespace(s[0]) {
      WordsAreWords(s[1..], i);
    } else {
      FirstWordIsWord(s);
      if i > 0 { WordsAreWords(s[WordLength(s)..], i - 1); }
    }
  }

  lemma {:induction false} FirstWordIsWord(s: string)
    ensures forall i :: 0 <= i < WordLength(s) ==> !IsWhitespace(s[i])
  {
    if s != "" && !IsWhitespace(s[0]) { FirstWordIsWord(s[1..]); }
  }

  /** One word in the device, none but words in the last fields, and nothing to decode in the type. */
  predicate PlainLine(m: Mount) {
    |Words(m.device)| == 1 && IsWord(m.fsType) && '\\' !in m.fsType && IsWord(m.dump) && IsWord(m.pass)
  }

  /** What the decoder takes for the mount point of a line. */
  lemma PointRead(m: Mount, lossy: seq<byte> -> string)
    requires PlainLine(m) && forall s: string :: lossy(Utf8(s)) == s
    ensures var r, piece := ParseLine(PrintLine(m), lossy), Segment(m.point);
            r.Some? && r.value.0 == if piece == "" then m.fsType else piece
  {
    var piece := Segment(m.point);
    WordsOfFields(m);
    WordsOfWord(m.fsType);
    WordsOfWord(m.dump);
    WordsOfWord(m.pass);
    FirstWordOfEscape(m.point);
    EscapeOfPlain(m.fsType);
    UnescapeOfEscape(if piece == "" then m.fsType else piece);
    assert Words(PrintLine(m))[1] == Escape(if piece == "" then m.fsType else piece);
  }

  lemma FourthOfWords(d: seq<string>, p: seq<string>, f: seq<string>, o: seq<string>, u: seq<string>, v: seq<string>)
    requires |d| == |p| == |f| == |u| == |v| == 1
    ensures var words := d + p + f + o + u + v;
            |words| >= 4 && words[3] == if o == [] then u[0] else o[0]
  {
  }

  /** What it takes for the options, when the mount point is one word. */
  lemma OptionsRead(m: Mount, lossy: seq<byte> -> string)
    requires PlainLine(m) && m.point != "" && Printable(m.point)
    ensures var r, options := ParseLine(PrintLine(m), lossy), Words(m.options);
            r.Some? && r.value.1 == if options == [] then m.dump else options[0]
  {
    WordsOfFields(m);
    EscapeIsWord(m.point);
    WordsOfWord(Escape(m.point));
    WordsOfWord(m.fsType);
    WordsOfWord(m.dump);
    WordsOfWord(m.pass);
    FourthOfWords(Words(m.device), Words(Escape(m.point)), Words(m.fsType), Words(m.options), Words(m.dump),
                  Words(m.pass));
  }

  /**
   * The exact extent of the round trip, for every mount point and all options of a line whose device is
   * one word: the mount point is read as its first piece between other whitespace, or else as the
   * file-system type; and both read back exactly when the mount point is not empty and holds no other
   * whitespace, and the options are a word.
   */
  lemma MountPointRoundTripExactly(m: Mount, lossy: seq<byte> -> string)
    requires PlainLine(m) && forall s: string :: lossy(Utf8(s)) == s
    ensures var r, piece := ParseLine(PrintLine(m), lossy), Segment(m.point);
            && r.Some? && r.value.0 == (if piece == "" then m.fsType else piece)
            && (r == Some((m.point, m.options)) <==> m.point != "" && Printable(m.point) && IsWord(m.options))
  {
    PointRead(m, lossy);
    SegmentIsPrintable(m.point);
    if m.point != "" && Printable(m.point) {
      OptionsRead(m, lossy);
      if IsWord(m.options) { WordsOfWord(m.options); }
      if Words(m.options) != [] { WordsAreWords(m.options, 0); }
    }
  }

  lemma {:induction false} EscapeOfPlain(s: string)
    requires forall i :: 0 <= i < |s| ==> s[i] != '\\' && !IsWhitespace(s[i])
    ensures Escape(s) == s
  {
    if s != "" {
      EscapeOfPlain(s[1..]);
      assert EscapeChar(s[0]) == [s[0]];
      assert s == [s[0]] + s[1..];
    }
  }

  lemma {:induction false} FirstWordOfEscape(point: string)
    ensures var piece, words := Segment(point), Words(Escape(point));
            if piece == "" then words == [] else words != [] && words[0] == Escape(piece)
  {
    if point != "" {
      if OtherWhitespace(point[0]) {
        FirstWordOfEscape(point[1..]);
        EscapeFromOther(point);
        assert ([point[0]] + Escape(point[1..]))[1..] == Escape(point[1..]);
      } else {
        FirstWordOfPiece(point);
      }
    }
  }

  lemma FirstWordOfPiece(point: string)
    requires point != "" && !OtherWhitespace(point[0])
    ensures Words(Escape(point)) != [] && Words(Escape(point))[0] == Escape(point[..CutAt(point)])
  {
    var n := CutAt(point);
    var p, rest := point[..n], point[n..];
    assert point == p + rest;
    EscapeAppend(p, rest);
    EscapeIsWord(p);
    WordsOfWord(Escape(p));
    if rest == "" {
      assert Escape(p) + "" == Escape(p);
    } else {
      EscapeFromOther(rest);
      WordsSplit(Escape(p), rest[0], Escape(rest[1..]));
      assert Escape(point) == Escape(p) + [rest[0]] + Escape(rest[1..]);
    }
  }

  lemma EscapeFromOther(s: string)
    requires s != "" && OtherWhitespace(s[0])
    ensures Escape(s) == [s[0]] + Escape(s[1..])
  {
  }

  lemma LeadingWhitespaceIsLost(m: Mount, lossy: seq<byte> -> string)
    requires PlainLine(m)
    requires forall s: string :: lossy(Utf8(s)) == s
    requires m.point != "" && OtherWhitespace(m.point[0]) && IsWord(m.point[1..])
    ensures var r := ParseLine(PrintLine(m), lossy);
            r.Some? && r.value.0 == m.point[1..] && r != Some((m.point, m.options))
  {
    MountPointRoundTripExactly(m, lossy);
    SegmentIsPrintable(m.point[1..]);
  }

  lemma AsciiWord(s: string)
    requires s != "" && forall i :: 0 <= i < |s| ==> '!' <= s[i] <= '~'
    ensures IsWord(s)
  {
  }

  /** A mount point that begins with a no-break space is read without it. */
  lemma NoBreakSpaceIsLost(lossy: seq<byte> -> string)
    requires forall s: string :: lossy(Utf8(s)) == s
    ensures var r := ParseLine(PrintLine(Mount("sdb1", "\U{A0}data", "ext4", "rw", "0", "0")), lossy);
            r.Some? && r.value.0 == "data"
  {
    AsciiWord("sdb1");
    AsciiWord("ext4");
    AsciiWord("rw");
    AsciiWord("0");
    AsciiWord("data");
    assert "\U{A0}data"[1..] == "data";
    WordsOfWord("sdb1");
    LeadingWhitespaceIsLost(Mount("sdb1", "\U{A0}data", "ext4", "rw", "0", "0"), lossy);
  }

  lemma SecondAndFourth(d: seq<string>, p: seq<string>, f: seq<string>, o: seq<string>, u: seq<string>, v: seq<string>)
    requires |d| == 2 && |p| == |f| == 1
    ensures var words := d + p + f + o + u + v;
            |words| >= 4 && words[1] == d[1] && words[3] == f[0]
  {
  }

  lemma SplitDevice(a: string, b: string)
    requires IsWord(a) && IsWord(b)
    ensures Words(a + "\U{A0}" + b) == [a, b]
  {
    WordsSplit(a, '\U{A0}', b);
    WordsOfWord(a);
    WordsOfWord(b);
  }

  lemma SplitDeviceWords(m: Mount, a: string, b: string)
    requires m.device == a + "\U{A0}" + b && IsWord(a) && IsWord(b)
    requires m.point != "" && Printable(m.point) && IsWord(m.fsType)
    ensures var words := Words(PrintLine(m));
            |words| >= 4 && words[1] == b && words[3] == m.fsType
  {
    WordsOfFields(m);
    SplitDevice(a, b);
    EscapeIsWord(m.point);
    WordsOfWord(Escape(m.point));
    WordsOfWord(m.fsType);
    SecondAndFourth(Words(m.device), Words(Escape(m.point)), Words(m.fsType), Words(m.options), Words(m.dump),
                    Words(m.pass));
  }

  lemma SplitDeviceIsMisread(m: Mount, a: string, b: string, lossy: seq<byte> -> string)
    requires m.device == a + "\U{A0}" + b && IsWord(a) && IsWord(b) && '\\' !in b
    requires m.point != "" && Printable(m.point) && IsWord(m.fsType)
    requires lossy(Utf8(b)) == b
    ensures ParseLine(PrintLine(m), lossy) == Some((b, m.fsType))
  {
    SplitDeviceWords(m, a, b);
    EscapeOfPlain(b);
    UnescapeOfEscape(b);
  }

  /** White space in the device shifts every field: the rest of it is read as the mount point. */
  lemma NoBreakSpaceInDevice(lossy: seq<byte> -> string)
    requires lossy(Utf8("b")) == "b"
    ensures ParseLine(PrintLine(Mount("a\U{A0}b", "/p", "ext4", "rw", "0", "0")), lossy) == Some(("b", "ext4"))
  {
    AsciiWord("a");
    AsciiWord("b");
    AsciiWord("/p");
    AsciiWord("ext4");
    assert "a\U{A0}b" == "a" + "\U{A0}" + "b";
    SplitDeviceIsMisread(Mount("a\U{A0}b", "/p", "ext4", "rw", "0", "0"), "a", "b", lossy);
  }
}
