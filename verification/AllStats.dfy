/**
 * The aggregate `GET /api/5/all` body, composed byte by byte (src/api/mod.rs:60-104).
 * A byte is modelled as the character with its code.
 */
module AllStats {
  import opened Wrappers
  import opened Strings
  import opened Plugins

  /** What one awaited plugin came back with, under its name; `None` when it failed. */
  datatype Completion = Completion(name: string, body: Option<string>)

  type Part = (string, string)

  /** The parts of the plugins that succeeded, in order of completion. */
  function PartsOf(done: seq<Completion>): seq<Part> {
    if done == [] then []
    else
      var last := done[|done| - 1];
      PartsOf(done[..|done| - 1]) + if last.body.Some? then [(last.name, last.body.value)] else []
  }

  function Member(p: Part): string {
    "\"" + p.0 + "\":" + p.1
  }

  function Members(parts: seq<Part>): string {
    if parts == [] then ""
    else Members(parts[..|parts| - 1]) + (if |parts| > 1 then "," else "") + Member(parts[|parts| - 1])
  }

  /** The object with the given members, in the given order. */
  function Compose(parts: seq<Part>): string {
    "{" + Members(parts) + "}"
  }

  function Reserved(parts: seq<Part>): nat {
    if parts == [] then 2
    else Reserved(parts[..|parts| - 1]) + |parts[|parts| - 1].0| + |parts[|parts| - 1].1| + 4
  }

  /** The results of the tasks, as they are joined. */
  method JoinAll(done: seq<Completion>) returns (parts: seq<Part>)
    ensures parts == PartsOf(done)
  {
    parts := [];
    for i := 0 to |done|
      invariant parts == PartsOf(done[..i])
    {
      assert done[..i + 1][..i] == done[..i];
      if done[i].body.Some? { parts := parts + [(done[i].name, done[i].body.value)]; }
    }
    assert done[..|done|] == done;
  }

  method Capacity(parts: seq<Part>) returns (capacity: nat)
    ensures capacity == Reserved(parts)
  {
    capacity := 2;
    for i := 0 to |parts|
      invariant capacity == Reserved(parts[..i])
    {
      assert parts[..i + 1][..i] == parts[..i];
      capacity := capacity + |parts[i].0| + |parts[i].1| + 4;
    }
    assert parts[..|parts|] == parts;
  }

  /** `all_stats`: `done` is the order in which the plugins finish. */
  method AllStats(done: seq<Completion>) returns (out: string, capacity: nat)
    ensures out == Compose(Sort(PartsOf(done)))
    ensures capacity == Reserved(Sort(PartsOf(done)))
  {
    var parts := JoinAll(done);
    parts := Sort(parts);
    capacity := Capacity(parts);
    out := "{";
    for i := 0 to |parts|
      invariant out == "{" + Members(parts[..i])
    {
      assert parts[..i + 1][..i] == parts[..i];
      if i > 0 { out := out + ","; }
      out := out + "\"";
      out := out + parts[i].0;
      out := out + "\":";
      out := out + parts[i].1;
    }
    assert parts[..|parts|] == parts;
    out := out + "}";
  }

  // ---------------------------------------------------------------------
  // Length
  // ---------------------------------------------------------------------

  /** The body fits its reserved capacity with exactly one byte to spare, or none when it is empty. */
  lemma {:induction false} ComposeLength(parts: seq<Part>)
    ensures |Compose(parts)| == if parts == [] then 2 else Reserved(parts) - 1
    decreases |parts|
  {
    if parts != [] { ComposeLength(parts[..|parts| - 1]); }
  }

  // ---------------------------------------------------------------------
  // Order of completion
  // ---------------------------------------------------------------------

  ghost predicate DistinctNames(done: seq<Completion>) {
    forall i, j :: 0 <= i < j < |done| ==> done[i].name != done[j].name
  }

  /** Different plugins have different names, and no name needs escaping. */
  lemma PluginNames(a: PluginId, b: PluginId)
    ensures Name(a) == Name(b) <==> a == b
    ensures '"' !in Name(a) && '\\' !in Name(a)
  {
    ParseInvertsName(a, Name(a));
    ParseInvertsName(b, Name(a));
  }

  /** The plugins of the tasks that `all_stats` spawns, one task each. */
  ghost predicate OnePerPlugin(done: seq<Completion>, ids: seq<PluginId>) {
    && |ids| == |done|
    && (forall i, j :: 0 <= i < j < |ids| ==> ids[i] != ids[j])
    && forall i :: 0 <= i < |ids| ==> done[i].name == Name(ids[i])
  }

  /** One task per plugin means distinct names, none of which needs escaping. */
  lemma PluginsHaveDistinctNames(done: seq<Completion>, ids: seq<PluginId>)
    requires OnePerPlugin(done, ids)
    ensures DistinctNames(done)
    ensures forall c <- done :: '"' !in c.name && '\\' !in c.name
  {
    forall i, j | 0 <= i < j < |done| ensures done[i].name != done[j].name {
      PluginNames(ids[i], ids[j]);
    }
    forall i | 0 <= i < |done| ensures '"' !in done[i].name && '\\' !in done[i].name {
      PluginNames(ids[i], ids[i]);
    }
  }

  lemma {:induction false} PartsComeFrom(done: seq<Completion>, p: Part)
    requires p in PartsOf(done)
    ensures exists c <- done :: c.name == p.0 && c.body == Some(p.1)
    decreases |done|
  {
    var prefix, last := done[..|done| - 1], done[|done| - 1];
    if p in PartsOf(prefix) {
      PartsComeFrom(prefix, p);
      var c :| c in prefix && c.name == p.0 && c.body == Some(p.1);
      assert c in done;
    } else {
      assert last in done;
    }
  }

  /** The parts are exactly the answers. */
  lemma {:induction false} PartsAreAnswers(done: seq<Completion>, p: Part)
    ensures p in PartsOf(done) <==> Completion(p.0, Some(p.1)) in done
    decreases |done|
  {
    if done != [] {
      var prefix, last := done[..|done| - 1], done[|done| - 1];
      PartsAreAnswers(prefix, p);
      assert done == prefix + [last];
    }
  }

  lemma SortedAnswers(done: seq<Completion>, p: Part)
    ensures p in Sort(PartsOf(done)) <==> Completion(p.0, Some(p.1)) in done
  {
    PartsAreAnswers(done, p);
    SortIsSorted(PartsOf(done));
    assert p in multiset(Sort(PartsOf(done))) <==> p in multiset(PartsOf(done));
  }

  /** Each plugin is awaited once, so the parts have distinct names. */
  lemma {:induction false} PartsDistinct(done: seq<Completion>)
    requires DistinctNames(done)
    ensures DistinctKeys(PartsOf(done))
    decreases |done|
  {
    if done != [] {
      var prefix := done[..|done| - 1];
      PartsDistinct(prefix);
      forall p <- PartsOf(prefix) ensures p.0 != done[|done| - 1].name {
        PartsComeFrom(prefix, p);
        var c :| c in prefix && c.name == p.0;
        var i :| 0 <= i < |prefix| && prefix[i] == c;
        assert done[i].name == p.0;
      }
    }
  }

  /** The parts as a multiset, one completion at a time. */
  function Gather(done: seq<Completion>): multiset<Part> {
    if done == [] then multiset{} else Gather(done[..|done| - 1]) + PartOf(done[|done| - 1])
  }

  function PartOf(c: Completion): multiset<Part> {
    if c.body.Some? then multiset{(c.name, c.body.value)} else multiset{}
  }

  lemma {:induction false} PartsAreGathered(done: seq<Completion>)
    ensures multiset(PartsOf(done)) == Gather(done)
    decreases |done|
  {
    if done != [] { PartsAreGathered(done[..|done| - 1]); }
  }

  lemma GatherAppend(done: seq<Completion>, c: Completion)
    ensures Gather(done + [c]) == Gather(done) + PartOf(c)
  {
    assert (done + [c])[..|done|] == done;
  }

  lemma RemoveBeforeLast(done: seq<Completion>, k: nat)
    requires k < |done| - 1
    ensures var shorter := done[..|done| - 1];
            done[..k] + done[k + 1..] == (shorter[..k] + shorter[k + 1..]) + [done[|done| - 1]]
  {
  }

  lemma {:induction false} GatherRemove(done: seq<Completion>, k: nat)
    requires k < |done|
    ensures Gather(done) == Gather(done[..k] + done[k + 1..]) + PartOf(done[k])
    decreases |done|
  {
    var n := |done| - 1;
    var shorter := done[..n];
    if k == n {
      assert done[..k] + done[k + 1..] == shorter;
    } else {
      GatherRemove(shorter, k);
      RemoveBeforeLast(done, k);
      GatherAppend(shorter[..k] + shorter[k + 1..], done[n]);
    }
  }

  lemma RemoveElement(b: seq<Completion>, k: nat)
    requires k < |b|
    ensures multiset(b[..k] + b[k + 1..]) == multiset(b) - multiset{b[k]}
  {
    assert b == b[..k] + [b[k]] + b[k + 1..];
  }

  /** The collected parts depend on what finished, not on the order it finished in. */
  lemma {:induction false} GatherIgnoresOrder(a: seq<Completion>, b: seq<Completion>)
    requires multiset(a) == multiset(b)
    ensures Gather(a) == Gather(b)
    decreases |a|
  {
    assert |multiset(a)| == |a| && |multiset(b)| == |b|;
    if a != [] {
      var n := |a| - 1;
      assert a[n] in multiset(b);
      var k :| 0 <= k < |b| && b[k] == a[n];
      RemoveElement(a, n);
      RemoveElement(b, k);
      assert a[..n] + a[n + 1..] == a[..n];
      GatherIgnoresOrder(a[..n], b[..k] + b[k + 1..]);
      GatherRemove(b, k);
    }
  }

  /** The bytes do not depend on the order in which plugins finish. */
  lemma CompletionOrderIrrelevant(a: seq<Completion>, b: seq<Completion>)
    requires DistinctNames(a) && multiset(a) == multiset(b)
    ensures Compose(Sort(PartsOf(a))) == Compose(Sort(PartsOf(b)))
  {
    PartsDistinct(a);
    PartsAreGathered(a);
    PartsAreGathered(b);
    GatherIgnoresOrder(a, b);
    SortIgnoresArrival(PartsOf(a), PartsOf(b));
  }

  // ---------------------------------------------------------------------
  // An independent reader, which splits an object at nesting depth one
  // ---------------------------------------------------------------------

  function Plus(n: nat, m: Option<nat>): Option<nat> {
    match m
    case Some(k) => Some(n + k)
    case None => None
  }

  /** How many bytes close `depth` open brackets, minding string literals and their escapes. */
  function Close(s: string, depth: nat, quoted: bool, escaped: bool): Option<nat> {
    if s == "" then None
    else if quoted then
      Plus(1, Close(s[1..], depth, escaped || s[0] != '"', !escaped && s[0] == '\\'))
    else if s[0] == '"' then Plus(1, Close(s[1..], depth, true, false))
    else if s[0] == '{' || s[0] == '[' then Plus(1, Close(s[1..], depth + 1, false, false))
    else if s[0] == '}' || s[0] == ']' then
      if depth <= 1 then Some(1) else Plus(1, Close(s[1..], depth - 1, false, false))
    else Plus(1, Close(s[1..], depth, false, false))
  }

  /** The extent of the object that starts `s`. */
  function ObjectLength(s: string): Option<nat> {
    if s != "" && s[0] == '{' then Plus(1, Close(s[1..], 1, false, false)) else None
  }

  /** A text that is one object, from its opening to its closing brace. */
  predicate IsObject(s: string) {
    ObjectLength(s) == Some(|s|)
  }

  function QuoteAt(s: string): (n: nat)
    ensures n <= |s|
  {
    if s == "" || s[0] == '"' then 0 else 1 + QuoteAt(s[1..])
  }

  /** Members up to the closing brace, which must end the text. */
  function SplitMembers(s: string): Option<seq<Part>>
    decreases |s|
  {
    if s == "" || s[0] != '"' then None
    else
      var n := QuoteAt(s[1..]);
      if |s| < n + 3 || s[n + 2] != ':' then None
      else
        var name, rest := s[1..n + 1], s[n + 3..];
        match ObjectLength(rest)
        case None => None
        case Some(k) =>
          if k >= |rest| then None
          else if rest[k] == '}' then (if |rest| == k + 1 then Some([(name, rest[..k])]) else None)
          else if rest[k] == ',' then
            match SplitMembers(rest[k + 1..])
            case Some(more) => Some([(name, rest[..k])] + more)
            case None => None
          else None
  }

  function Split(s: string): Option<seq<Part>> {
    if s == "{}" then Some([])
    else if s != "" && s[0] == '{' then SplitMembers(s[1..])
    else None
  }

  lemma {:induction false} CloseLocal(s: string, rest: string, depth: nat, quoted: bool, escaped: bool)
    requires Close(s, depth, quoted, escaped) == Some(|s|)
    ensures Close(s + rest, depth, quoted, escaped) == Some(|s|)
  {
    assert (s + rest)[1..] == s[1..] + rest;
    if quoted {
      CloseLocal(s[1..], rest, depth, escaped || s[0] != '"', !escaped && s[0] == '\\');
    } else if s[0] == '"' {
      CloseLocal(s[1..], rest, depth, true, false);
    } else if s[0] == '{' || s[0] == '[' {
      CloseLocal(s[1..], rest, depth + 1, false, false);
    } else if s[0] == '}' || s[0] == ']' {
      if depth > 1 { CloseLocal(s[1..], rest, depth - 1, false, false); }
    } else {
      CloseLocal(s[1..], rest, depth, false, false);
    }
  }

  /** An object keeps its extent whatever follows it. */
  lemma ObjectLocal(body: string, rest: string)
    requires IsObject(body)
    ensures ObjectLength(body + rest) == Some(|body|)
  {
    assert (body + rest)[1..] == body[1..] + rest;
    CloseLocal(body[1..], rest, 1, false, false);
  }

  lemma {:induction false} QuoteAfter(name: string, rest: string)
    requires '"' !in name
    ensures QuoteAt(name + "\"" + rest) == |name|
  {
    var s := name + "\"" + rest;
    if name != "" {
      assert s[1..] == name[1..] + "\"" + rest;
      QuoteAfter(name[1..], rest);
    }
  }

  /** The members after the first one, as they follow it. */
  function Following(parts: seq<Part>): string {
    if parts == [] then "" else "," + Member(parts[0]) + Following(parts[1..])
  }

  lemma {:induction false} FollowingAppend(parts: seq<Part>, p: Part)
    ensures Following(parts + [p]) == Following(parts) + "," + Member(p)
    decreases |parts|
  {
    if parts == [] {
      assert [p][1..] == [];
      assert Following([p]) == "," + Member(p) + Following([]);
    } else {
      assert (parts + [p])[1..] == parts[1..] + [p];
      FollowingAppend(parts[1..], p);
    }
  }

  lemma MembersAppend(parts: seq<Part>, p: Part)
    requires parts != []
    ensures Members(parts + [p]) == Members(parts) + "," + Member(p)
  {
    assert (parts + [p])[..|parts|] == parts;
  }

  lemma Regroup(a: string, b: string, c: string)
    ensures (a + b) + "," + c == a + (b + "," + c)
  {
  }

  lemma MembersFromHeadAppend(front: seq<Part>, last: Part)
    requires front != [] && Members(front) == Member(front[0]) + Following(front[1..])
    ensures Members(front + [last]) == Member(front[0]) + Following(front[1..] + [last])
  {
    MembersAppend(front, last);
    FollowingAppend(front[1..], last);
    Regroup(Member(front[0]), Following(front[1..]), Member(last));
    Reassociate(Following(front[1..]), Member(last));
  }

  lemma Reassociate(a: string, b: string)
    ensures a + "," + b == a + ("," + b)
  {
  }

  lemma {:induction false} MembersFromHead(parts: seq<Part>)
    requires parts != []
    ensures Members(parts) == Member(parts[0]) + Following(parts[1..])
    decreases |parts|
  {
    var n := |parts| - 1;
    if n == 0 {
      assert parts[..0] == [] && parts[1..] == [];
    } else {
      MembersFromHead(parts[..n]);
      MembersFromHeadAppend(parts[..n], parts[n]);
      assert parts[..n] + [parts[n]] == parts && parts[..n][1..] + [parts[n]] == parts[1..];
    }
  }

  /** Where the pieces of a member lie in the text that starts with it. */
  lemma MemberLayout(p: Part, tail: string)
    ensures var s, n := Member(p) + tail, |p.0|;
            && |s| == n + 3 + |p.1| + |tail|
            && s[0] == '"' && s[1..] == p.0 + "\"" + (":" + p.1 + tail) && s[n + 2] == ':'
            && s[1..n + 1] == p.0 && s[n + 3..] == p.1 + tail
  {
  }

  /** Reading one member leaves what follows it. */
  lemma SplitOne(p: Part, tail: string)
    requires '"' !in p.0 && IsObject(p.1) && tail != ""
    ensures tail == "}" ==> SplitMembers(Member(p) + tail) == Some([p])
    ensures tail[0] == ',' && SplitMembers(tail[1..]).Some?
        ==> SplitMembers(Member(p) + tail) == Some([p] + SplitMembers(tail[1..]).value)
  {
    MemberLayout(p, tail);
    QuoteAfter(p.0, ":" + p.1 + tail);
    ObjectLocal(p.1, tail);
    var rest := p.1 + tail;
    assert rest[..|p.1|] == p.1 && rest[|p.1|] == tail[0] && rest[|p.1| + 1..] == tail[1..];
  }

  lemma {:induction false} SplitOfMembers(p: Part, more: seq<Part>)
    requires '"' !in p.0 && IsObject(p.1)
    requires forall q <- more :: '"' !in q.0 && IsObject(q.1)
    ensures SplitMembers(Member(p) + (Following(more) + "}")) == Some([p] + more)
    decreases |more|
  {
    var tail := Following(more) + "}";
    SplitOne(p, tail);
    if more == [] {
      assert tail == "}" && [p] + more == [p];
    } else {
      SplitOfMembers(more[0], more[1..]);
      FollowingTail(more);
      assert [more[0]] + more[1..] == more;
    }
  }

  lemma FollowingTail(more: seq<Part>)
    requires more != []
    ensures var tail := Following(more) + "}";
            tail[0] == ',' && tail[1..] == Member(more[0]) + (Following(more[1..]) + "}")
  {
  }

  lemma ComposeShape(parts: seq<Part>)
    requires parts != []
    ensures Compose(parts) == "{" + (Member(parts[0]) + (Following(parts[1..]) + "}"))
  {
    MembersFromHead(parts);
  }

  lemma SplitBraced(inner: string)
    requires inner != "" && inner[0] == '"'
    ensures Split("{" + inner) == SplitMembers(inner)
  {
    assert ("{" + inner)[1..] == inner && ("{" + inner)[1] == '"';
  }

  /** Splitting the composed object gives back exactly the parts that went in, in order. */
  lemma SplitOfCompose(parts: seq<Part>)
    requires forall p <- parts :: '"' !in p.0 && IsObject(p.1)
    ensures Split(Compose(parts)) == Some(parts)
  {
    if parts == [] {
      assert Compose(parts) == "{}";
    } else {
      ComposeShape(parts);
      SplitBraced(Member(parts[0]) + (Following(parts[1..]) + "}"));
      SplitOfMembers(parts[0], parts[1..]);
      assert [parts[0]] + parts[1..] == parts;
    }
  }

  /**
   * The aggregate body, split back at depth one, holds the succeeded plugins and their bodies,
   * each once, sorted by name.
   */
  lemma AggregateSplitsBack(done: seq<Completion>)
    requires DistinctNames(done)
    requires forall c <- done :: '"' !in c.name && (c.body.Some? ==> IsObject(c.body.value))
    ensures var parts := Sort(PartsOf(done));
            && Split(Compose(parts)) == Some(parts)
            && Sorted(parts) && DistinctKeys(parts)
            && forall p :: p in parts <==> Completion(p.0, Some(p.1)) in done
  {
    var parts := Sort(PartsOf(done));
    SortIsSorted(PartsOf(done));
    PartsDistinct(done);
    DistinctByMultiset(PartsOf(done), parts);
    forall p ensures p in parts <==> Completion(p.0, Some(p.1)) in done { SortedAnswers(done, p); }
    forall p <- parts ensures '"' !in p.0 && IsObject(p.1) {
      assert p in multiset(parts);
      PartsComeFrom(done, p);
    }
    SplitOfCompose(parts);
  }
}
