/**
 The manifest engine: rules sorted once by priority, evaluated until the first match,
 with each screen region extracted at most once per snapshot.
*/
module Engine {
  import opened Wrappers
  import opened Reducers

  datatype Region = OscTitle | OscProgress | WholeRecent | PromptBoxBody | BottomNonEmptyLines

  datatype Context = Context(text: string, lines: seq<string>, progress: Option<int>)

  datatype Predicate = Contains(needle: string) | Regex(pattern: string) | LineRegex(pattern: string)
                     | Progress(state: int) | Any(ps: seq<Predicate>) | All(ps: seq<Predicate>) | Not(p: Predicate)

  /** Substring search and regular expressions, which are not modelled. */
  datatype Matcher = Matcher(contains: (string, string) -> bool, matches: (string, string) -> bool)

  function Evaluate(m: Matcher, p: Predicate, ctx: Context): bool {
    match p
    case Contains(needle) => m.contains(ctx.text, needle)
    case Regex(pattern) => m.matches(pattern, ctx.text)
    case LineRegex(pattern) => exists line | line in ctx.lines :: m.matches(pattern, line)
    case Progress(state) => ctx.progress == Some(state)
    case Any(ps) => exists q | q in ps :: Evaluate(m, q, ctx)
    case All(ps) => forall q | q in ps :: Evaluate(m, q, ctx)
    case Not(q) => !Evaluate(m, q, ctx)
  }

  // ---- what the connectives mean --------------------------------------------------

  lemma EmptyLists(m: Matcher, ctx: Context)
    ensures !Evaluate(m, Any([]), ctx) && Evaluate(m, All([]), ctx)
  {}

  /** One more member can only help `Any` and only hurt `All`, wherever it stands. */
  lemma OneMoreMember(m: Matcher, ctx: Context, before: seq<Predicate>, p: Predicate, after: seq<Predicate>)
    ensures Evaluate(m, Any(before + [p] + after), ctx) == (Evaluate(m, Any(before + after), ctx) || Evaluate(m, p, ctx))
    ensures Evaluate(m, All(before + [p] + after), ctx) == (Evaluate(m, All(before + after), ctx) && Evaluate(m, p, ctx))
  {
    forall q
      ensures q in before + [p] + after <==> q == p || q in before + after
    {
    }
  }

  /** `Not` exchanges the two: none of these is not all of their opposites. */
  lemma DeMorgan(m: Matcher, ctx: Context, ps: seq<Predicate>, opposite: seq<Predicate>)
    requires |opposite| == |ps| && forall i | 0 <= i < |ps| :: opposite[i] == Not(ps[i])
    ensures Evaluate(m, Not(Any(ps)), ctx) == Evaluate(m, All(opposite), ctx)
    ensures Evaluate(m, Not(All(ps)), ctx) == Evaluate(m, Any(opposite), ctx)
  {
    forall q | q in ps
      ensures Not(q) in opposite && Evaluate(m, Not(q), ctx) != Evaluate(m, q, ctx)
    {
      var i :| 0 <= i < |ps| && ps[i] == q;
      assert opposite[i] == Not(q);
    }
    forall q | q in opposite
      ensures q.Not? && q.p in ps && Evaluate(m, q, ctx) != Evaluate(m, q.p, ctx)
    {
      var i :| 0 <= i < |opposite| && opposite[i] == q;
      assert ps[i] == q.p;
    }
  }

  predicate Positive(p: Predicate) {
    match p
    case Any(ps) => forall q | q in ps :: Positive(q)
    case All(ps) => forall q | q in ps :: Positive(q)
    case Not(_) => false
    case _ => true
  }

  /** Whatever `m` finds, `n` finds too. */
  ghost predicate Finds(m: Matcher, n: Matcher) {
    && (forall text, needle | m.contains(text, needle) :: n.contains(text, needle))
    && (forall pattern, text | m.matches(pattern, text) :: n.matches(pattern, text))
  }

  /** A predicate without `Not` never loses a match by a matcher that finds more. */
  lemma {:induction false} MoreFound(m: Matcher, n: Matcher, p: Predicate, ctx: Context)
    requires Finds(m, n) && Positive(p) && Evaluate(m, p, ctx)
    ensures Evaluate(n, p, ctx)
  {
    match p
    case Any(ps) =>
      var q :| q in ps && Evaluate(m, q, ctx);
      MoreFound(m, n, q, ctx);
    case All(ps) =>
      forall q | q in ps
        ensures Evaluate(n, q, ctx)
      {
        MoreFound(m, n, q, ctx);
      }
    case _ =>
  }

  datatype Rule = Rule(id: string, state: ScreenState, priority: int, region: Region, regionLines: int, when: Predicate)

  datatype Indexed = Indexed(offset: nat, rule: Rule)

  /** Descending priority; ties keep manifest order. */
  predicate Before(a: Indexed, b: Indexed) {
    if a.rule.priority != b.rule.priority then a.rule.priority > b.rule.priority else a.offset < b.offset
  }

  predicate Ordered(s: seq<Indexed>) {
    forall i, j | 0 <= i < j < |s| :: Before(s[i], s[j])
  }

  function Enumerated(rules: seq<Rule>): (s: seq<Indexed>)
    ensures |s| == |rules| && forall i | 0 <= i < |s| :: s[i] == Indexed(i, rules[i])
  {
    seq(|rules|, i requires 0 <= i < |rules| => Indexed(i, rules[i]))
  }

  function Insert(x: Indexed, s: seq<Indexed>): seq<Indexed> {
    if s == [] || Before(x, s[0]) then [x] + s else [s[0]] + Insert(x, s[1..])
  }

  function Sort(s: seq<Indexed>): seq<Indexed> {
    if s == [] then [] else Insert(s[0], Sort(s[1..]))
  }

  ghost predicate Distinct(s: seq<Indexed>) {
    forall i, j | 0 <= i < j < |s| :: s[i].offset != s[j].offset
  }

  lemma {:induction false} InsertMember(x: Indexed, s: seq<Indexed>, y: Indexed)
    ensures y in Insert(x, s) <==> y == x || y in s
  {
    if s != [] && !Before(x, s[0]) {
      InsertMember(x, s[1..], y);
      assert y in s <==> y == s[0] || y in s[1..];
    }
  }

  lemma {:induction false} InsertOrdered(x: Indexed, s: seq<Indexed>)
    requires Ordered(s) && forall y | y in s :: y.offset != x.offset
    ensures Ordered(Insert(x, s))
  {
    if s != [] && !Before(x, s[0]) {
      InsertOrdered(x, s[1..]);
      var rest := Insert(x, s[1..]);
      forall j | 0 <= j < |rest|
        ensures Before(s[0], rest[j])
      {
        InsertMember(x, s[1..], rest[j]);
      }
    }
  }

  lemma {:induction false} SortMember(s: seq<Indexed>, y: Indexed)
    ensures y in Sort(s) <==> y in s
  {
    if s != [] {
      InsertMember(s[0], Sort(s[1..]), y);
      SortMember(s[1..], y);
      assert y in s <==> y == s[0] || y in s[1..];
    }
  }

  lemma {:induction false} SortOrdered(s: seq<Indexed>)
    requires Distinct(s)
    ensures Ordered(Sort(s))
  {
    if s != [] {
      SortOrdered(s[1..]);
      forall y | y in Sort(s[1..])
        ensures y.offset != s[0].offset
      {
        SortMember(s[1..], y);
      }
      InsertOrdered(s[0], Sort(s[1..]));
    }
  }

  datatype Manifest = Manifest(id: string, rules: seq<Indexed>)

  function MakeManifest(id: string, decoded: seq<Rule>): Manifest {
    Manifest(id, Sort(Enumerated(decoded)))
  }

  // ---- evaluation -----------------------------------------------------------------

  function Joined(lines: seq<string>): string {
    if lines == [] then "" else if |lines| == 1 then lines[0] else lines[0] + "\n" + Joined(lines[1..])
  }

  /** The lines of a text: what stands between newlines. */
  function Split(text: string): (lines: seq<string>)
    ensures lines != []
  {
    if text == "" then [""]
    else
      var rest := Split(text[1..]);
      if text[0] == '\n' then [""] + rest else [[text[0]] + rest[0]] + rest[1..]
  }

  lemma {:induction false} SplitJoin(line: string, tail: string)
    requires '\n' !in line
    ensures Split(line) == [line] && Split(line + "\n" + tail) == [line] + Split(tail)
  {
    if line == "" {
      assert line + "\n" + tail == "\n" + tail;
    } else {
      SplitJoin(line[1..], tail);
      assert line == [line[0]] + line[1..];
      assert (line + "\n" + tail)[1..] == line[1..] + "\n" + tail;
    }
  }

  /** A region's text is its lines and nothing else. */
  lemma {:induction false} JoinedSplits(lines: seq<string>)
    requires lines != [] && forall line | line in lines :: '\n' !in line
    ensures Split(Joined(lines)) == lines
  {
    SplitJoin(lines[0], if |lines| == 1 then "" else Joined(lines[1..]));
    if |lines| > 1 {
      JoinedSplits(lines[1..]);
    }
  }

  /** A snapshot is known by its regions and its progress report. */
  datatype Snapshot = Snapshot(extract: (Region, int) -> seq<string>, progress: Option<int>)

  function ContextOf(s: Snapshot, r: Rule): Context {
    Context(Joined(s.extract(r.region, r.regionLines)), s.extract(r.region, r.regionLines), s.progress)
  }

  predicate Matches(m: Matcher, s: Snapshot, r: Rule) {
    Evaluate(m, r.when, ContextOf(s, r))
  }

  /** The rule a naive evaluator picks: the best match of all, by priority and then by
      place in the manifest. */
  ghost predicate Best(m: Matcher, s: Snapshot, decoded: seq<Rule>, i: nat) {
    i < |decoded| && Matches(m, s, decoded[i]) &&
    forall j | 0 <= j < |decoded| && Matches(m, s, decoded[j]) ::
      decoded[j].priority < decoded[i].priority || (decoded[j].priority == decoded[i].priority && i <= j)
  }

  lemma BestIsUnique(m: Matcher, s: Snapshot, decoded: seq<Rule>, i: nat, j: nat)
    requires Best(m, s, decoded, i) && Best(m, s, decoded, j)
    ensures i == j
  {}

  lemma OnlyBest(m: Matcher, s: Snapshot, decoded: seq<Rule>, i: nat)
    requires Best(m, s, decoded, i)
    ensures forall j: nat | Best(m, s, decoded, j) :: decoded[j] == decoded[i]
  {
    forall j: nat | Best(m, s, decoded, j)
      ensures decoded[j] == decoded[i]
    {
      BestIsUnique(m, s, decoded, i, j);
    }
  }

  ghost predicate Lone(m: Matcher, s: Snapshot, decoded: seq<Rule>, i: nat) {
    i < |decoded| && Matches(m, s, decoded[i]) && forall j | 0 <= j < |decoded| && j != i :: !Matches(m, s, decoded[j])
  }

  /** A rule that reads one region alone: its text, its lines, or the progress report. */
  lemma AtomMatches(m: Matcher, s: Snapshot, r: Rule)
    ensures var lines := s.extract(r.region, r.regionLines);
            && (r.when.Contains? ==> (Matches(m, s, r) <==> m.contains(Joined(lines), r.when.needle)))
            && (r.when.Regex? ==> (Matches(m, s, r) <==> m.matches(r.when.pattern, Joined(lines))))
            && (r.when.LineRegex? ==> (Matches(m, s, r) <==> exists k :: 0 <= k < |lines| && m.matches(r.when.pattern, lines[k])))
            && (r.when.Progress? ==> (Matches(m, s, r) <==> s.progress == Some(r.when.state)))
  {}

  lemma MemberOfSorted(decoded: seq<Rule>, k: nat)
    requires k < |Sort(Enumerated(decoded))|
    ensures var x := Sort(Enumerated(decoded))[k]; x.offset < |decoded| && decoded[x.offset] == x.rule
  {
    SortMember(Enumerated(decoded), Sort(Enumerated(decoded))[k]);
  }

  /** The first match in sorted order is the naive evaluator's choice. */
  lemma FirstMatchIsBest(m: Matcher, s: Snapshot, decoded: seq<Rule>, k: nat)
    requires var sorted := Sort(Enumerated(decoded));
             k < |sorted| && Matches(m, s, sorted[k].rule) && forall i | 0 <= i < k :: !Matches(m, s, sorted[i].rule)
    ensures Best(m, s, decoded, Sort(Enumerated(decoded))[k].offset)
  {
    var sorted := Sort(Enumerated(decoded));
    SortOrdered(Enumerated(decoded));
    MemberOfSorted(decoded, k);
    forall j | 0 <= j < |decoded| && Matches(m, s, decoded[j])
      ensures decoded[j].priority < sorted[k].rule.priority ||
              (decoded[j].priority == sorted[k].rule.priority && sorted[k].offset <= j)
    {
      SortMember(Enumerated(decoded), Enumerated(decoded)[j]);
      var at :| 0 <= at < |sorted| && sorted[at] == Indexed(j, decoded[j]);
      assert at >= k;
    }
  }

  lemma NoMatchAnywhere(m: Matcher, s: Snapshot, decoded: seq<Rule>)
    requires forall i | 0 <= i < |Sort(Enumerated(decoded))| :: !Matches(m, s, Sort(Enumerated(decoded))[i].rule)
    ensures forall j | 0 <= j < |decoded| :: !Matches(m, s, decoded[j])
  {
    forall j | 0 <= j < |decoded|
      ensures !Matches(m, s, decoded[j])
    {
      SortMember(Enumerated(decoded), Enumerated(decoded)[j]);
      var at :| 0 <= at < |Sort(Enumerated(decoded))| && Sort(Enumerated(decoded))[at] == Indexed(j, decoded[j]);
    }
  }

  datatype Key = Key(region: Region, regionLines: int)
  datatype Entry = Entry(lines: seq<string>, text: string)

  ghost predicate Cached(s: Snapshot, cache: map<Key, Entry>) {
    forall k | k in cache ::
      var lines := s.extract(k.region, k.regionLines); cache[k] == Entry(lines, Joined(lines))
  }

  /** A rule's context, from the cache when its region is already there. */
  method ContextFor(s: Snapshot, r: Rule, cache: map<Key, Entry>) returns (ctx: Context, filled: map<Key, Entry>)
    requires Cached(s, cache)
    ensures ctx == ContextOf(s, r) && Cached(s, filled)
  {
    var key := Key(r.region, r.regionLines);
    filled := cache;
    if key !in cache {
      var lines := s.extract(r.region, r.regionLines);
      filled := cache[key := Entry(lines, Joined(lines))];
    }
    var entry := filled[key];
    ctx := Context(entry.text, entry.lines, s.progress);
  }

  /** The fast evaluator picks exactly what the naive one would, or nothing when nothing
      matches. */
  method EvaluateImpl(m: Matcher, s: Snapshot, ghost decoded: seq<Rule>, manifest: Manifest) returns (winner: Option<Rule>)
    requires manifest == MakeManifest(manifest.id, decoded)
    ensures winner.None? ==> forall j | 0 <= j < |decoded| :: !Matches(m, s, decoded[j])
    ensures winner.Some? ==> exists i: nat :: Best(m, s, decoded, i)
    ensures forall i: nat | Best(m, s, decoded, i) :: winner == Some(decoded[i])
    ensures forall i: nat | Lone(m, s, decoded, i) :: winner == Some(decoded[i])
  {
    var cache: map<Key, Entry> := map[];
    var k := 0;
    winner := None;
    while k < |manifest.rules|
      invariant k <= |manifest.rules| && Cached(s, cache)
      invariant winner.None?
      invariant forall i | 0 <= i < k :: !Matches(m, s, manifest.rules[i].rule)
    {
      var rule, ctx := manifest.rules[k].rule, Context("", [], None);
      ctx, cache := ContextFor(s, rule, cache);
      if Evaluate(m, rule.when, ctx) {
        FirstMatchIsBest(m, s, decoded, k);
        MemberOfSorted(decoded, k);
        OnlyBest(m, s, decoded, manifest.rules[k].offset);
        return Some(rule);
      }
      k := k + 1;
    }
    NoMatchAnywhere(m, s, decoded);
  }
}
