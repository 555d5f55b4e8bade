/**
 * Why every collected body is an object to the reader of `AllStats`: the texts of the JSON
 * grammar (RFC 8259, sections 2 to 7), as `serde_json::to_vec` writes them, without blanks.
 */
module JsonText {
  import opened Wrappers
  import opened Plugins
  import opened Strings
  import opened AllStats

  /** A value by its syntax; a text inside quotes is kept as written, escapes included. */
  datatype Syntax =
    | Scalar(text: string)
    | Quoted(text: string)
    | Array(items: seq<Syntax>)
    | Object(members: seq<Member>)

  datatype Member = Member(name: string, value: Syntax)

  /** Numbers, `true`, `false` and `null` hold no structural character. */
  predicate PlainText(s: string) {
    forall i :: 0 <= i < |s| ==> s[i] !in "\"{}[]"
  }

  /** The inside of a string literal: no bare quote, and no escape left open. */
  predicate LiteralText(s: string, escaped: bool) {
    if s == "" then !escaped
    else (escaped || s[0] != '"') && LiteralText(s[1..], !escaped && s[0] == '\\')
  }

  predicate WellFormed(v: Syntax) {
    match v
    case Scalar(text) => PlainText(text)
    case Quoted(text) => LiteralText(text, false)
    case Array(items) => forall i :: 0 <= i < |items| ==> WellFormed(items[i])
    case Object(members) =>
      forall i :: 0 <= i < |members| ==> LiteralText(members[i].name, false) && WellFormed(members[i].value)
  }

  function Print(v: Syntax): string
    decreases v, 1
  {
    match v
    case Scalar(text) => text
    case Quoted(text) => "\"" + text + "\""
    case Array(items) => "[" + PrintItems(items) + "]"
    case Object(members) => "{" + PrintMembers(members) + "}"
  }

  function PrintItems(items: seq<Syntax>): string
    decreases items, 0
  {
    if items == [] then ""
    else Print(items[0]) + (if |items| == 1 then "" else ",") + PrintItems(items[1..])
  }

  function PrintMembers(members: seq<Member>): string
    decreases members, 0
  {
    if members == [] then ""
    else
      "\"" + members[0].name + "\":" + Print(members[0].value) + (if |members| == 1 then "" else ",")
      + PrintMembers(members[1..])
  }

  /** `text` leaves the bracket depth as it found it. */
  ghost predicate Neutral(text: string) {
    forall rest: string, depth: nat :: depth >= 1 ==>
      Close(text + rest, depth, false, false) == Plus(|text|, Close(rest, depth, false, false))
  }

  lemma NeutralEmpty()
    ensures Neutral("")
  {
    forall rest: string, depth: nat | depth >= 1
      ensures Close("" + rest, depth, false, false) == Plus(0, Close(rest, depth, false, false))
    {
      assert "" + rest == rest;
    }
  }

  lemma Associate(a: string, b: string, c: string)
    ensures a + b + c == a + (b + c)
  {
  }

  lemma NeutralAppend(a: string, b: string)
    requires Neutral(a) && Neutral(b)
    ensures Neutral(a + b)
  {
    forall rest: string, depth: nat | depth >= 1
      ensures Close(a + b + rest, depth, false, false) == Plus(|a + b|, Close(rest, depth, false, false))
    {
      Associate(a, b, rest);
      assert Close(b + rest, depth, false, false) == Plus(|b|, Close(rest, depth, false, false));
      assert Close(a + (b + rest), depth, false, false) == Plus(|a|, Close(b + rest, depth, false, false));
    }
  }

  lemma NeutralChar(c: char)
    requires c !in "\"{}[]"
    ensures Neutral([c])
  {
    forall rest: string, depth: nat | depth >= 1
      ensures Close([c] + rest, depth, false, false) == Plus(1, Close(rest, depth, false, false))
    {
      assert ([c] + rest)[1..] == rest;
    }
  }

  lemma {:induction false} NeutralPlain(text: string)
    requires PlainText(text)
    ensures Neutral(text)
  {
    if text == "" {
      NeutralEmpty();
    } else {
      NeutralChar(text[0]);
      NeutralPlain(text[1..]);
      NeutralAppend([text[0]], text[1..]);
      assert text == [text[0]] + text[1..];
    }
  }

  lemma {:induction false} CloseLiteral(text: string, rest: string, depth: nat, escaped: bool)
    requires LiteralText(text, escaped)
    ensures Close(text + "\"" + rest, depth, true, escaped) == Plus(|text| + 1, Close(rest, depth, false, false))
  {
    var s := text + "\"" + rest;
    if text == "" {
      assert s[1..] == rest;
    } else {
      assert s[1..] == text[1..] + "\"" + rest;
      CloseLiteral(text[1..], rest, depth, !escaped && text[0] == '\\');
    }
  }

  lemma NeutralQuoted(text: string)
    requires LiteralText(text, false)
    ensures Neutral("\"" + text + "\"")
  {
    var quoted := "\"" + text + "\"";
    forall rest: string, depth: nat | depth >= 1
      ensures Close(quoted + rest, depth, false, false) == Plus(|quoted|, Close(rest, depth, false, false))
    {
      assert (quoted + rest)[1..] == text + "\"" + rest;
      CloseLiteral(text, rest, depth, false);
    }
  }

  lemma CloseBracketed(open: char, inner: string, close: char, rest: string, depth: nat)
    requires (open == '{' && close == '}') || (open == '[' && close == ']')
    requires Neutral(inner) && depth >= 1
    ensures Close([open] + (inner + ([close] + rest)), depth, false, false) ==
            Plus(|inner| + 2, Close(rest, depth, false, false))
  {
    var tail := [close] + rest;
    var text := [open] + (inner + tail);
    assert text[1..] == inner + tail && tail[1..] == rest;
    assert Close(inner + tail, depth + 1, false, false) == Plus(|inner|, Close(tail, depth + 1, false, false));
  }

  lemma Regroup(a: string, b: string, c: string, d: string)
    ensures a + b + c + d == a + (b + (c + d))
  {
  }

  lemma NeutralBrackets(open: char, inner: string, close: char)
    requires (open == '{' && close == '}') || (open == '[' && close == ']')
    requires Neutral(inner)
    ensures Neutral([open] + inner + [close])
  {
    var text := [open] + inner + [close];
    forall rest: string, depth: nat | depth >= 1
      ensures Close(text + rest, depth, false, false) == Plus(|text|, Close(rest, depth, false, false))
    {
      CloseBracketed(open, inner, close, rest, depth);
      Regroup([open], inner, [close], rest);
    }
  }

  lemma NeutralComma(last: bool)
    ensures Neutral(if last then "" else ",")
  {
    NeutralEmpty();
    NeutralChar(',');
  }

  /** Every value's text is neutral. */
  lemma {:induction false} PrintNeutral(v: Syntax)
    requires WellFormed(v)
    ensures Neutral(Print(v))
    decreases v, 1
  {
    match v
    case Scalar(text) => NeutralPlain(text);
    case Quoted(text) => NeutralQuoted(text);
    case Array(items) =>
      ItemsNeutral(items);
      NeutralBrackets('[', PrintItems(items), ']');
    case Object(members) =>
      MembersNeutral(members);
      NeutralBrackets('{', PrintMembers(members), '}');
  }

  lemma {:induction false} ItemsNeutral(items: seq<Syntax>)
    requires forall i :: 0 <= i < |items| ==> WellFormed(items[i])
    ensures Neutral(PrintItems(items))
    decreases items, 0
  {
    if items == [] {
      NeutralEmpty();
    } else {
      var comma := if |items| == 1 then "" else ",";
      PrintNeutral(items[0]);
      NeutralComma(|items| == 1);
      ItemsNeutral(items[1..]);
      NeutralAppend(Print(items[0]), comma);
      NeutralAppend(Print(items[0]) + comma, PrintItems(items[1..]));
    }
  }

  lemma {:induction false} MembersNeutral(members: seq<Member>)
    requires forall i :: 0 <= i < |members| ==> LiteralText(members[i].name, false) && WellFormed(members[i].value)
    ensures Neutral(PrintMembers(members))
    decreases members, 0
  {
    if members == [] {
      NeutralEmpty();
    } else {
      var key, value := "\"" + members[0].name + "\"", Print(members[0].value);
      var comma := if |members| == 1 then "" else ",";
      NeutralQuoted(members[0].name);
      NeutralChar(':');
      PrintNeutral(members[0].value);
      NeutralComma(|members| == 1);
      MembersNeutral(members[1..]);
      NeutralAppend(key, ":");
      NeutralAppend(key + ":", value);
      NeutralAppend(key + ":" + value, comma);
      NeutralAppend(key + ":" + value + comma, PrintMembers(members[1..]));
      assert PrintMembers(members) == key + ":" + value + comma + PrintMembers(members[1..]);
    }
  }

  /** The text of a JSON object is one object to the reader, whatever its strings and nesting. */
  lemma ObjectTextIsObject(v: Syntax)
    requires WellFormed(v) && v.Object?
    ensures IsObject(Print(v))
  {
    var inner := PrintMembers(v.members);
    MembersNeutral(v.members);
    assert Print(v)[1..] == inner + "}";
    assert Close(inner + "}", 1, false, false) == Plus(|inner|, Close("}", 1, false, false));
  }

  // ---------------------------------------------------------------------
  // The JSON grammar (RFC 8259, sections 3, 6 and 7)
  // ---------------------------------------------------------------------

  predicate IsDigit(c: char) {
    '0' <= c <= '9'
  }

  function DigitRun(s: string): (n: nat)
    ensures n <= |s|
    ensures forall i :: 0 <= i < n ==> IsDigit(s[i])
  {
    if s == "" || !IsDigit(s[0]) then 0
    else
      var n := DigitRun(s[1..]);
      assert forall i :: 1 <= i < n + 1 ==> s[i] == s[1..][i - 1];
      n + 1
  }

  /** What follows the integer part, with its sign; no leading zeros. */
  function AfterInt(s: string): Option<string> {
    var t := if s != "" && s[0] == '-' then s[1..] else s;
    if t == "" || !IsDigit(t[0]) then None
    else if t[0] == '0' then Some(t[1..])
    else Some(t[DigitRun(t)..])
  }

  /** What follows a fraction, if there is one. */
  function AfterFrac(s: string): Option<string> {
    if s == "" || s[0] != '.' then Some(s)
    else
      var n := DigitRun(s[1..]);
      if n == 0 then None else Some(s[1..][n..])
  }

  /** What follows an exponent, if there is one. */
  function AfterExp(s: string): Option<string> {
    if s == "" || (s[0] != 'e' && s[0] != 'E') then Some(s)
    else
      var t := if |s| > 1 && (s[1] == '+' || s[1] == '-') then s[2..] else s[1..];
      var n := DigitRun(t);
      if n == 0 then None else Some(t[n..])
  }

  predicate IsNumber(s: string) {
    var i := AfterInt(s);
    && i.Some?
    && var f := AfterFrac(i.value);
       f.Some? && AfterExp(f.value) == Some("")
  }

  predicate IsHex(c: char) {
    IsDigit(c) || 'a' <= c <= 'f' || 'A' <= c <= 'F'
  }

  /** The inside of a JSON string: legal escapes, and no quote, backslash or control character outside them. */
  predicate StrictLiteral(s: string) {
    s == ""
    || (s[0] != '\\' && s[0] != '"' && s[0] >= ' ' && StrictLiteral(s[1..]))
    || (|s| >= 2 && s[0] == '\\' && s[1] in "\"\\/bfnrt" && StrictLiteral(s[2..]))
    || (|s| >= 6 && s[0] == '\\' && s[1] == 'u' && (forall i :: 2 <= i < 6 ==> IsHex(s[i])) && StrictLiteral(s[6..]))
  }

  predicate Strict(v: Syntax) {
    match v
    case Scalar(text) => text == "true" || text == "false" || text == "null" || IsNumber(text)
    case Quoted(text) => StrictLiteral(text)
    case Array(items) => forall i :: 0 <= i < |items| ==> Strict(items[i])
    case Object(members) =>
      forall i :: 0 <= i < |members| ==> StrictLiteral(members[i].name) && Strict(members[i].value)
  }

  predicate Ends(s: string, rest: string) {
    |rest| <= |s| && s[|s| - |rest|..] == rest
  }

  /** `rest` ends `s`, and nothing before it is structural. */
  predicate PlainUpTo(s: string, rest: string) {
    Ends(s, rest) && PlainText(s[..|s| - |rest|])
  }

  lemma PlainChain(s: string, t: string, u: string)
    requires PlainUpTo(s, t) && PlainUpTo(t, u)
    ensures PlainUpTo(s, u)
  {
    var n, k := |s| - |t|, |t| - |u|;
    assert s == s[..n] + t;
    assert t == t[..k] + u;
    assert s[..n + k] == s[..n] + t[..k];
  }

  /** A few plain characters and then a run of digits. */
  lemma PlainRun(s: string, k: nat, n: nat)
    requires k + n <= |s| && PlainText(s[..k])
    requires forall i :: 0 <= i < n ==> IsDigit(s[k..][i])
    ensures PlainUpTo(s, s[k..][n..])
  {
    assert s[k..][n..] == s[k + n..];
    var front := s[..k + n];
    forall i | 0 <= i < |front| ensures front[i] !in "\"{}[]" {
      if i < k { assert s[..k][i] == s[i]; } else { assert s[k..][i - k] == s[i]; }
    }
  }

  lemma PlainInt(s: string)
    requires AfterInt(s).Some?
    ensures PlainUpTo(s, AfterInt(s).value)
  {
    var k := if s[0] == '-' then 1 else 0;
    assert s[k..] == if s[0] == '-' then s[1..] else s;
    PlainRun(s, k, if s[k] == '0' then 1 else DigitRun(s[k..]));
  }

  lemma PlainFrac(s: string)
    requires AfterFrac(s).Some?
    ensures PlainUpTo(s, AfterFrac(s).value)
  {
    if s == "" || s[0] != '.' {
      PlainRun(s, 0, 0);
      assert s[0..][0..] == s;
    } else {
      PlainRun(s, 1, DigitRun(s[1..]));
    }
  }

  lemma PlainExp(s: string)
    requires AfterExp(s).Some?
    ensures PlainUpTo(s, AfterExp(s).value)
  {
    if s == "" || (s[0] != 'e' && s[0] != 'E') {
      PlainRun(s, 0, 0);
      assert s[0..][0..] == s;
    } else {
      var k := if |s| > 1 && (s[1] == '+' || s[1] == '-') then 2 else 1;
      PlainRun(s, k, DigitRun(s[k..]));
    }
  }

  lemma PlainParts(s: string, t: string, u: string)
    requires PlainUpTo(s, t) && PlainUpTo(t, u) && PlainUpTo(u, "")
    ensures PlainText(s)
  {
    PlainChain(s, t, u);
    PlainChain(s, u, "");
    assert s[..|s|] == s;
  }

  lemma PlainNumber(s: string)
    requires IsNumber(s)
    ensures PlainText(s)
  {
    var i := AfterInt(s).value;
    var f := AfterFrac(i).value;
    PlainInt(s);
    PlainFrac(i);
    PlainExp(f);
    PlainParts(s, i, f);
  }

  lemma {:induction false} StrictIsLiteral(s: string)
    requires StrictLiteral(s)
    ensures LiteralText(s, false)
    decreases |s|
  {
    if s == "" {
    } else if s[0] != '\\' {
      StrictIsLiteral(s[1..]);
    } else if s[1] == 'u' {
      StrictIsLiteral(s[6..]);
      HexIsLiteral(s[2..], 4);
      assert s[1..][1..] == s[2..] && s[2..][4..] == s[6..];
    } else {
      StrictIsLiteral(s[2..]);
      assert s[1..][1..] == s[2..];
    }
  }

  lemma {:induction false} HexIsLiteral(s: string, n: nat)
    requires n <= |s| && (forall i :: 0 <= i < n ==> IsHex(s[i])) && LiteralText(s[n..], false)
    ensures LiteralText(s, false)
    decreases n
  {
    if n > 0 {
      assert s[1..][n - 1..] == s[n..];
      HexIsLiteral(s[1..], n - 1);
    }
  }

  /** The grammar is within what the reader's results ask for. */
  lemma {:induction false} StrictIsWellFormed(v: Syntax)
    requires Strict(v)
    ensures WellFormed(v)
  {
    match v
    case Scalar(text) => if IsNumber(text) { PlainNumber(text); }
    case Quoted(text) => StrictIsLiteral(text);
    case Array(items) =>
      forall i | 0 <= i < |items| ensures WellFormed(items[i]) { StrictIsWellFormed(items[i]); }
    case Object(members) =>
      forall i | 0 <= i < |members| ensures LiteralText(members[i].name, false) && WellFormed(members[i].value) {
        StrictIsLiteral(members[i].name);
        StrictIsWellFormed(members[i].value);
      }
  }

  // ---------------------------------------------------------------------
  // The aggregate body is itself the text of an object
  // ---------------------------------------------------------------------

  lemma {:induction false} PlainLiteral(s: string)
    requires '"' !in s && '\\' !in s
    ensures LiteralText(s, false)
  {
    if s != "" { PlainLiteral(s[1..]); }
  }

  /** `pick` finds, for the body of each part, a value that prints it. */
  ghost predicate Finds(pick: string -> Syntax, parts: seq<Part>) {
    forall p <- parts :: Print(pick(p.1)) == p.1
  }

  ghost function MembersOf(parts: seq<Part>, pick: string -> Syntax): seq<Member> {
    seq(|parts|, i requires 0 <= i < |parts| => Member(parts[i].0, pick(parts[i].1)))
  }

  lemma PrintHead(parts: seq<Part>, pick: string -> Syntax)
    requires parts != [] && Finds(pick, parts)
    ensures PrintMembers(MembersOf(parts, pick)) ==
            AllStats.Member(parts[0]) + (if |parts| == 1 then "" else ",") + PrintMembers(MembersOf(parts[1..], pick))
  {
    assert MembersOf(parts, pick)[1..] == MembersOf(parts[1..], pick);
    assert parts[0] in parts;
  }

  lemma {:induction false} PrintFollows(parts: seq<Part>, pick: string -> Syntax)
    requires parts != [] && Finds(pick, parts)
    ensures PrintMembers(MembersOf(parts, pick)) == AllStats.Member(parts[0]) + Following(parts[1..])
    decreases |parts|
  {
    PrintHead(parts, pick);
    if |parts| > 1 {
      PrintFollows(parts[1..], pick);
      assert Following(parts[1..]) == "," + AllStats.Member(parts[1]) + Following(parts[1..][1..]);
    } else {
      assert parts[1..] == [] && MembersOf(parts[1..], pick) == [];
    }
  }

  /** Composing the texts of objects byte by byte prints the object that has them as members. */
  lemma ComposeIsPrint(parts: seq<Part>, pick: string -> Syntax)
    requires Finds(pick, parts)
    ensures Compose(parts) == Print(Object(MembersOf(parts, pick)))
  {
    if parts == [] {
      assert MembersOf(parts, pick) == [];
    } else {
      PrintFollows(parts, pick);
      MembersFromHead(parts);
    }
  }

  /** The text of some well-formed object. */
  ghost predicate IsObjectText(text: string) {
    exists v :: WellFormed(v) && v.Object? && Print(v) == text
  }

  ghost function ObjectOf(text: string): (v: Syntax)
    ensures IsObjectText(text) ==> WellFormed(v) && v.Object? && Print(v) == text
  {
    if IsObjectText(text) then
      var v :| WellFormed(v) && v.Object? && Print(v) == text;
      v
    else Scalar("")
  }

  /** The text of some object of the JSON grammar. */
  ghost predicate IsJsonObjectText(text: string) {
    exists v :: Strict(v) && v.Object? && Print(v) == text
  }

  ghost function JsonObjectOf(text: string): (v: Syntax)
    ensures IsJsonObjectText(text) ==> Strict(v) && v.Object? && Print(v) == text
  {
    if IsJsonObjectText(text) then
      var v :| Strict(v) && v.Object? && Print(v) == text;
      v
    else Scalar("")
  }

  /**
   * Whatever plugins answer with the text of an object, and in whatever order they finish: the aggregate
   * body is the text of a well-formed object, whose members are the answers sorted by name, and reading it
   * at depth one gives those answers back.
   */
  lemma AggregateIsObjectText(done: seq<Completion>, ids: seq<PluginId>) returns (members: seq<Member>)
    requires OnePerPlugin(done, ids)
    requires forall c <- done :: c.body.Some? ==> IsObjectText(c.body.value)
    ensures var parts := Sort(PartsOf(done));
            && Compose(parts) == Print(Object(members)) && WellFormed(Object(members))
            && |members| == |parts|
            && (forall i :: 0 <= i < |parts| ==> parts[i] == (members[i].name, Print(members[i].value)))
            && Split(Compose(parts)) == Some(parts)
            && Sorted(parts) && forall p :: p in parts <==> Completion(p.0, Some(p.1)) in done
  {
    var parts, pick := Sort(PartsOf(done)), (t: string) => ObjectOf(t);
    PluginsHaveDistinctNames(done, ids);
    forall c <- done ensures c.body.Some? ==> IsObject(c.body.value) {
      if c.body.Some? { ObjectTextIsObject(ObjectOf(c.body.value)); }
    }
    AggregateSplitsBack(done);
    forall p <- parts ensures IsObjectText(p.1) && LiteralText(p.0, false) {
      PartIsAnswer(done, p);
      PlainLiteral(p.0);
    }
    members := MembersOf(parts, pick);
    ComposeIsPrint(parts, pick);
  }

  /**
   * If every answer is the text of an object of the JSON grammar, then so is the aggregate body, with the
   * answers as its members, sorted by name.
   */
  lemma AggregateIsJson(done: seq<Completion>, ids: seq<PluginId>) returns (members: seq<Member>)
    requires OnePerPlugin(done, ids)
    requires forall c <- done :: c.body.Some? ==> IsJsonObjectText(c.body.value)
    ensures var parts := Sort(PartsOf(done));
            && Compose(parts) == Print(Object(members)) && Strict(Object(members))
            && |members| == |parts|
            && (forall i :: 0 <= i < |parts| ==> parts[i] == (members[i].name, Print(members[i].value)))
            && Split(Compose(parts)) == Some(parts)
            && Sorted(parts) && forall p :: p in parts <==> Completion(p.0, Some(p.1)) in done
  {
    var parts, pick := Sort(PartsOf(done)), (t: string) => JsonObjectOf(t);
    forall c <- done ensures c.body.Some? ==> IsObjectText(c.body.value) {
      if c.body.Some? { StrictIsWellFormed(JsonObjectOf(c.body.value)); }
    }
    var lenient := AggregateIsObjectText(done, ids);
    forall p <- parts ensures IsJsonObjectText(p.1) && StrictLiteral(p.0) {
      PartIsAnswer(done, p);
      NameIsStrict(done, ids, p.0);
    }
    members := MembersOf(parts, pick);
    ComposeIsPrint(parts, pick);
  }

  lemma NameIsStrict(done: seq<Completion>, ids: seq<PluginId>, name: string)
    requires OnePerPlugin(done, ids) && exists c <- done :: c.name == name
    ensures StrictLiteral(name)
  {
    var i :| 0 <= i < |done| && done[i].name == name;
    NameIsLower(ids[i]);
    LowerIsStrict(name);
  }

  lemma NameIsLower(id: PluginId)
    ensures forall i :: 0 <= i < |Name(id)| ==> 'a' <= Name(id)[i] <= 'z'
  {
  }

  lemma {:induction false} LowerIsStrict(s: string)
    requires forall i :: 0 <= i < |s| ==> 'a' <= s[i] <= 'z'
    ensures StrictLiteral(s)
  {
    if s != "" { LowerIsStrict(s[1..]); }
  }

  lemma PartIsAnswer(done: seq<Completion>, p: Part)
    requires p in Sort(PartsOf(done))
    ensures exists c <- done :: c.name == p.0 && c.body == Some(p.1)
  {
    SortIsSorted(PartsOf(done));
    assert p in multiset(Sort(PartsOf(done)));
    PartsComeFrom(done, p);
  }
}
