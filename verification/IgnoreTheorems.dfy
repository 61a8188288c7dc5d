/** The filter with its cache answers as the rule without it; what its lists hold after any run. */
module IgnoreTheorems {
  import opened Wrappers
  import opened Text
  import opened Ignore

  // ---------- markers ----------

  /** A marker is found in the nearest directory that has one, provided that everything below could be read. */
  lemma {:induction false} FirstMarkerIff(probe: Probe, dirs: seq<string>, d: string)
    ensures FirstMarker(probe, dirs) == Some(d) <==>
            exists k :: 0 <= k < |dirs| && dirs[k] == d && probe(dirs[k]).MarkerFile? &&
                        forall j :: 0 <= j < k ==> !probe(dirs[j]).MarkerFile? && !probe(dirs[j]).Unreadable?
    decreases |dirs|
  {
    if dirs != [] {
      var tail := dirs[1..];
      FirstMarkerIff(probe, tail, d);
      if k :| 0 <= k < |tail| && tail[k] == d && probe(tail[k]).MarkerFile? &&
              (forall j :: 0 <= j < k ==> !probe(tail[j]).MarkerFile? && !probe(tail[j]).Unreadable?) {
        assert dirs[k + 1] == d;
        assert forall j :: 0 < j < k + 1 ==> dirs[j] == tail[j - 1];
      }
      if k :| 0 <= k < |dirs| && dirs[k] == d && probe(dirs[k]).MarkerFile? &&
              (forall j :: 0 <= j < k ==> !probe(dirs[j]).MarkerFile? && !probe(dirs[j]).Unreadable?) {
        assert k > 0 ==> dirs[0] == dirs[0] && tail[k - 1] == d;
        assert forall j :: 0 <= j < k - 1 ==> tail[j] == dirs[j + 1];
      }
    }
  }

  // ---------- the cache ----------

  /** The rule without a cache. */
  function Rule(probe: Probe, st: State, input: Input): Evaluation {
    if Truthy(input.sessionId) && input.sessionId.value in st.sessions then DropSession(input.sessionId.value)
    else if !Truthy(input.cwd) then Pass
    else if PathFor(st.paths, input.cwd.value).Some? then DropPath(PathFor(st.paths, input.cwd.value).value)
    else
      var marker := MarkerFor(probe, StripTrailingSep(input.cwd.value));
      if marker.Some? then DropMarker(marker.value) else Pass
  }

  /** Everything but the directory reported for a marker. */
  function Reason(e: Evaluation): Evaluation {
    if e.DropMarker? then DropMarker("") else e
  }

  predicate Sound(probe: Probe, cache: seq<Entry>) {
    forall k :: 0 <= k < |cache| ==> cache[k].hit == MarkerFor(probe, cache[k].key).Some?
  }

  predicate Bounded(limits: Limits, st: State) {
    |st.cache| <= Max(limits.cache, 1) && |st.sessions| <= Max(limits.sessions, 0)
  }

  lemma {:induction false} CachedIs(probe: Probe, cache: seq<Entry>, key: string)
    requires Sound(probe, cache)
    ensures Cached(cache, key).Some? ==> Cached(cache, key).value.hit == MarkerFor(probe, key).Some?
  {
    if cache != [] {
      assert Sound(probe, cache[1..]);
      CachedIs(probe, cache[1..], key);
    }
  }

  lemma ConsSound(probe: Probe, e: Entry, cache: seq<Entry>)
    requires Sound(probe, cache) && e.hit == MarkerFor(probe, e.key).Some?
    ensures Sound(probe, [e] + cache)
  {
  }

  lemma {:induction false} StoreSound(probe: Probe, cache: seq<Entry>, e: Entry)
    requires Sound(probe, cache) && e.hit == MarkerFor(probe, e.key).Some?
    ensures Sound(probe, Store(cache, e)) && |Store(cache, e)| <= |cache| + 1
  {
    if cache == [] {
      assert Store(cache, e) == [e] + [];
      ConsSound(probe, e, []);
    } else {
      assert Sound(probe, cache[1..]);
      if cache[0].key == e.key {
        ConsSound(probe, e, cache[1..]);
      } else {
        StoreSound(probe, cache[1..], e);
        ConsSound(probe, cache[0], Store(cache[1..], e));
      }
    }
  }

  lemma {:induction false} DropSound(probe: Probe, cache: seq<Entry>, key: string)
    requires Sound(probe, cache)
    ensures Sound(probe, Drop(cache, key)) && |Drop(cache, key)| <= |cache|
  {
    if cache != [] {
      assert Sound(probe, cache[1..]);
      if cache[0].key != key {
        DropSound(probe, cache[1..], key);
        ConsSound(probe, cache[0], Drop(cache[1..], key));
      }
    }
  }

  lemma QueryRefines(probe: Probe, limits: Limits, st: State, input: Input)
    requires Sound(probe, st.cache) && |st.cache| <= Max(limits.cache, 1)
    ensures var answer := Evaluate(probe, limits, st, input);
            && Reason(answer.evaluation) == Reason(Rule(probe, st, input))
            && Sound(probe, answer.st.cache) && |answer.st.cache| <= Max(limits.cache, 1)
            && answer.st == st.(cache := answer.st.cache)
  {
    if Truthy(input.cwd) {
      LookupRefines(probe, limits.cache, st.cache, input.cwd.value, input.conversation);
    }
  }

  lemma LookupRefines(probe: Probe, capacity: int, cache: seq<Entry>, cwd: string, conversation: Option<string>)
    requires Sound(probe, cache) && |cache| <= Max(capacity, 1)
    ensures var l := LookupMarker(probe, capacity, cache, cwd, conversation);
            && l.marker.Some? == MarkerFor(probe, StripTrailingSep(cwd)).Some?
            && Sound(probe, l.cache) && |l.cache| <= Max(capacity, 1)
  {
    var key := StripTrailingSep(cwd);
    CachedIs(probe, cache, key);
    var room := if |cache| >= capacity && cache != [] then cache[1..] else cache;
    assert Sound(probe, room);
    StoreSound(probe, room, Entry(key, conversation, MarkerFor(probe, key).Some?));
  }

  lemma {:induction false} WithoutShorter(s: seq<string>, x: string)
    ensures |Without(s, x)| == if x in s then |s| - 1 else |s|
  {
    if s != [] && s[0] != x { WithoutShorter(s[1..], x); }
  }

  lemma {:induction false} EvictBounds(s: seq<string>, max: int)
    ensures |Evict(s, max)| <= Max(max, 0)
    decreases |s|
  {
    if |s| > max && s != [] { EvictBounds(s[1..], max); }
  }

  lemma StepKeeps(probe: Probe, limits: Limits, st: State, ev: Event)
    requires Sound(probe, st.cache) && Bounded(limits, st)
    ensures Sound(probe, Step(probe, limits, st, ev).cache) && Bounded(limits, Step(probe, limits, st, ev))
  {
    match ev
    case Query(input) => QueryRefines(probe, limits, st, input);
    case AddIgnoredSession(id) =>
      WithoutShorter(st.sessions, id);
      EvictBounds(st.sessions + [id], limits.sessions);
    case RemoveIgnoredSession(id) => WithoutShorter(st.sessions, id);
    case Invalidate(cwd) => if cwd.Some? { DropSound(probe, st.cache, StripTrailingSep(cwd.value)); }
    case _ =>
  }

  // ---------- runs ----------

  /** What a run answers to its queries. */
  function Answers(probe: Probe, limits: Limits, st: State, evs: seq<Event>): seq<Evaluation>
    decreases |evs|
  {
    if evs == [] then []
    else
      (if evs[0].Query? then [Reason(Evaluate(probe, limits, st, evs[0].input).evaluation)] else [])
      + Answers(probe, limits, Step(probe, limits, st, evs[0]), evs[1..])
  }

  /** What the rule answers, on a state without a cache. */
  function RuleAnswers(probe: Probe, limits: Limits, st: State, evs: seq<Event>): seq<Evaluation>
    decreases |evs|
  {
    if evs == [] then []
    else
      (if evs[0].Query? then [Reason(Rule(probe, st, evs[0].input))] else [])
      + RuleAnswers(probe, limits, if evs[0].Query? then st
        else Step(probe, limits, st, evs[0]).(cache := []), evs[1..])
  }

  lemma {:induction false} AnswersRefine(probe: Probe, limits: Limits, st: State, plain: State, evs: seq<Event>)
    requires Sound(probe, st.cache) && Bounded(limits, st) && plain == st.(cache := [])
    ensures Answers(probe, limits, st, evs) == RuleAnswers(probe, limits, plain, evs)
    decreases |evs|
  {
    if evs != [] {
      var ev := evs[0];
      StepKeeps(probe, limits, st, ev);
      if ev.Query? { QueryRefines(probe, limits, st, ev.input); }
      AnswersRefine(probe, limits, Step(probe, limits, st, ev), if ev.Query? then plain
        else Step(probe, limits, plain, ev).(cache := []), evs[1..]);
    }
  }

  /** With a fixed file system, every run answers as the rule does: session, then path, then marker, whatever was
      cached, invalidated or evicted. */
  lemma CacheInvisible(probe: Probe, limits: Limits, evs: seq<Event>)
    ensures Answers(probe, limits, EMPTY, evs) == RuleAnswers(probe, limits, EMPTY, evs)
  {
    AnswersRefine(probe, limits, EMPTY, EMPTY, evs);
  }

  function Run(probe: Probe, limits: Limits, st: State, evs: seq<Event>): State
    decreases |evs|
  {
    if evs == [] then st else Run(probe, limits, Step(probe, limits, st, evs[0]), evs[1..])
  }

  /** The cache stays within a capacity of at least one, and the session list within its maximum. */
  lemma {:induction false} StaysBounded(probe: Probe, limits: Limits, st: State, evs: seq<Event>)
    requires Sound(probe, st.cache) && Bounded(limits, st)
    ensures Bounded(limits, Run(probe, limits, st, evs))
    decreases |evs|
  {
    if evs != [] {
      StepKeeps(probe, limits, st, evs[0]);
      StaysBounded(probe, limits, Step(probe, limits, st, evs[0]), evs[1..]);
    }
  }

  lemma {:induction false} RunSound(probe: Probe, limits: Limits, st: State, evs: seq<Event>)
    requires Sound(probe, st.cache) && Bounded(limits, st)
    ensures Sound(probe, Run(probe, limits, st, evs).cache)
    decreases |evs|
  {
    if evs != [] {
      StepKeeps(probe, limits, st, evs[0]);
      RunSound(probe, limits, Step(probe, limits, st, evs[0]), evs[1..]);
    }
  }

  /** The answer comes from the cache: no session and no path decides, and the directory is stored for this
      conversation. */
  predicate Hit(st: State, input: Input) {
    && !(Truthy(input.sessionId) && input.sessionId.value in st.sessions)
    && Truthy(input.cwd) && PathFor(st.paths, input.cwd.value).None?
    && var cached := Cached(st.cache, StripTrailingSep(input.cwd.value));
       cached.Some? && cached.value.conversation == input.conversation
  }

  /** In every reached state the whole answer is known, with the directory: on a hit the one asked for, else the
      rule's. */
  lemma AnswerIs(probe: Probe, limits: Limits, evs: seq<Event>, input: Input)
    ensures var st := Run(probe, limits, EMPTY, evs);
            var rule := Rule(probe, st, input);
            Evaluate(probe, limits, st, input).evaluation ==
            if Hit(st, input) && rule.DropMarker? then DropMarker(StripTrailingSep(input.cwd.value)) else rule
  {
    var st := Run(probe, limits, EMPTY, evs);
    RunSound(probe, limits, EMPTY, evs);
    if Truthy(input.cwd) { CachedIs(probe, st.cache, StripTrailingSep(input.cwd.value)); }
  }

  /** The directory reported holds the marker exactly when the answer is no hit, or the marker is where it was asked
      for. */
  lemma MarkerDirIff(probe: Probe, limits: Limits, evs: seq<Event>, input: Input)
    ensures var st := Run(probe, limits, EMPTY, evs);
            var rule := Rule(probe, st, input);
            Evaluate(probe, limits, st, input).evaluation == rule <==>
            (Hit(st, input) && rule.DropMarker? ==> rule.dir == StripTrailingSep(input.cwd.value))
  {
    AnswerIs(probe, limits, evs, input);
  }

  /** A marker in the parent directory, asked for twice: first the parent is reported, then the directory itself. */
  lemma SecondAnswerDiffers(limits: Limits)
    ensures var probe: Probe := d => if d == "/a" then MarkerFile else Missing;
            var input := Input(None, Some("/a/b"), None);
            && Evaluate(probe, limits, EMPTY, input).evaluation == DropMarker("/a")
            && Evaluate(probe, limits, Run(probe, limits, EMPTY, [Query(input)]), input).evaluation ==
              DropMarker("/a/b")
  {
    var probe: Probe := d => if d == "/a" then MarkerFile else Missing;
    var input := Input(None, Some("/a/b"), None);
    MarkerInParent(probe);
    assert [Query(input)][1..] == [];
    AnswerIs(probe, limits, [Query(input)], input);
    AnswerIs(probe, limits, [], input);
  }

  lemma MarkerInParent(probe: Probe)
    requires probe("/a/b").Missing? && probe("/a").MarkerFile?
    ensures MarkerFor(probe, "/a/b") == Some("/a") && StripTrailingSep("/a/b") == "/a/b"
  {
    var p := "/a/b";
    assert p[|p| - 1] == 'b' && TrimSlashes(p) == p;
    assert p[..3] == "/a/" && p[..2] == "/a";
    assert LastSlash(p[..3]) == Some(2);
    assert LastSlash(p) == Some(2);
    assert Dirname(p) == "/a";
    assert Ancestors(p)[1..] == Ancestors("/a");
  }

  // ---------- sessions ----------

  /** A history without the entries that come again later. */
  function Latest(history: seq<string>): seq<string> {
    if history == [] then []
    else (if history[0] in history[1..] then [] else [history[0]]) + Latest(history[1..])
  }

  function TakeLast(s: seq<string>, n: nat): seq<string> {
    if |s| <= n then s else s[|s| - n..]
  }

  predicate Distinct(s: seq<string>) {
    forall i, j :: 0 <= i < j < |s| ==> s[i] != s[j]
  }

  lemma {:induction false} LatestMembers(history: seq<string>)
    ensures Distinct(Latest(history)) && forall x :: x in Latest(history) <==> x in history
  {
    if history != [] {
      var head, tail := history[0], history[1..];
      LatestMembers(tail);
      assert history == [head] + tail;
      if head in tail {
        assert [] + Latest(tail) == Latest(tail);
      } else {
        ConsDistinct(head, Latest(tail));
      }
    }
  }

  lemma ConsDistinct(head: string, tail: seq<string>)
    requires Distinct(tail) && head !in tail
    ensures Distinct([head] + tail)
  {
    var all := [head] + tail;
    forall i, j | 0 <= i < j < |all| ensures all[i] != all[j] {
      assert all[j] == tail[j - 1] && (i > 0 ==> all[i] == tail[i - 1]);
    }
  }

  lemma {:induction false} WithoutAppend(a: seq<string>, b: seq<string>, x: string)
    ensures Without(a + b, x) == if x in a then Without(a, x) + b else a + Without(b, x)
  {
    if a == [] {
      assert a + b == b && a + Without(b, x) == Without(b, x);
    } else {
      var head, tail := a[0], a[1..];
      assert (a + b)[1..] == tail + b && (a + b)[0] == head && a == [head] + tail;
      if head != x {
        WithoutAppend(tail, b, x);
        Assoc([head], Without(tail, x), b);
        Assoc([head], tail, Without(b, x));
      }
    }
  }

  lemma {:induction false} LatestSnoc(history: seq<string>, x: string)
    ensures Latest(history + [x]) == Without(Latest(history), x) + [x]
  {
    if history == [] {
      assert history + [x] == [x] && [x][1..] == [];
    } else {
      var head, tail := history[0], history[1..];
      assert (history + [x])[1..] == tail + [x] && (history + [x])[0] == head;
      LatestSnoc(tail, x);
      LatestMembers(tail);
      WithoutHead(head, tail, x);
      assert head in tail + [x] <==> head in tail || head == x;
    }
  }

  lemma {:induction false} WithoutAbsent(s: seq<string>, x: string)
    requires x !in s
    ensures Without(s, x) == s
  {
    if s != [] { WithoutAbsent(s[1..], x); }
  }

  lemma WithoutHead(head: string, tail: seq<string>, x: string)
    requires forall y :: y in Latest(tail) <==> y in tail
    ensures Without((if head in tail then [] else [head]) + Latest(tail), x) ==
            (if head in tail || head == x then [] else [head]) + Without(Latest(tail), x)
  {
    if head in tail {
      assert [] + Latest(tail) == Latest(tail) && [] + Without(Latest(tail), x) == Without(Latest(tail), x);
    } else {
      assert ([head] + Latest(tail))[1..] == Latest(tail);
      if head == x {
        WithoutAbsent(Latest(tail), x);
        assert [] + Latest(tail) == Latest(tail);
      }
    }
  }

  lemma TakeLastSuffix(a: seq<string>, b: seq<string>, n: nat)
    requires |b| >= n
    ensures TakeLast(a + b, n) == TakeLast(b, n)
  {
  }

  lemma {:induction false} EvictTakes(s: seq<string>, max: int)
    ensures Evict(s, max) == TakeLast(s, Max(max, 0))
    decreases |s|
  {
    if |s| > max && s != [] { EvictTakes(s[1..], max); }
  }

  lemma AddTakesLast(all: seq<string>, x: string, max: int)
    requires Distinct(all)
    ensures AddSession(TakeLast(all, Max(max, 0)), x, max) == TakeLast(Without(all, x) + [x], Max(max, 0))
  {
    var n := Max(max, 0);
    var kept := TakeLast(all, n);
    var gone := all[..|all| - |kept|];
    assert all == gone + kept;
    WithoutAppend(gone, kept, x);
    WithoutShorter(kept, x);
    if x in kept {
      assert x !in gone;
      Assoc(gone, Without(kept, x), [x]);
      if gone != [] { TakeLastSuffix(gone, Without(kept, x) + [x], n); }
    } else {
      WithoutAbsent(kept, x);
      EvictTakes(kept + [x], max);
      if gone != [] {
        var rest := if x in gone then Without(gone, x) else gone;
        Assoc(rest, kept, [x]);
        TakeLastSuffix(rest, kept + [x], n);
      }
    }
  }

  function Adds(history: seq<string>): seq<Event> {
    seq(|history|, k requires 0 <= k < |history| => AddIgnoredSession(history[k]))
  }

  lemma {:induction false} RunSnoc(probe: Probe, limits: Limits, st: State, evs: seq<Event>, ev: Event)
    ensures Run(probe, limits, st, evs + [ev]) == Step(probe, limits, Run(probe, limits, st, evs), ev)
    decreases |evs|
  {
    if evs == [] {
      assert evs + [ev] == [ev] && [ev][1..] == [];
    } else {
      assert (evs + [ev])[1..] == evs[1..] + [ev];
      RunSnoc(probe, limits, Step(probe, limits, st, evs[0]), evs[1..], ev);
    }
  }

  /** After any sequence of additions the session list is the end of the history, each session at its latest place. */
  lemma {:induction false} SessionsAreLatest(probe: Probe, limits: Limits, history: seq<string>)
    requires forall k :: 0 <= k < |history| ==> history[k] != ""
    ensures Run(probe, limits, EMPTY, Adds(history)) ==
      EMPTY.(sessions := TakeLast(Latest(history), Max(limits.sessions, 0)))
    decreases |history|
  {
    if history != [] {
      var n := |history| - 1;
      var front, x := history[..n], history[n];
      assert history == front + [x] && Adds(history) == Adds(front) + [AddIgnoredSession(x)];
      SessionsAreLatest(probe, limits, front);
      RunSnoc(probe, limits, EMPTY, Adds(front), AddIgnoredSession(x));
      LatestMembers(front);
      LatestSnoc(front, x);
      AddTakesLast(Latest(front), x, limits.sessions);
    }
  }

  // ---------- ignored paths ----------

  /** Absolute, without doubled or trailing slashes. */
  predicate Normal(p: string) {
    p != "" && p[0] == '/' && (|p| > 1 ==> p[|p| - 1] != '/') && forall i :: 0 <= i < |p| - 1 ==>
      p[i] != '/' || p[i + 1] != '/'
  }

  lemma NormalDirname(t: string)
    requires Normal(t) && t != "/"
    ensures Dirname(t) == (if LastSlash(t).None? then "/" else t[..LastSlash(t).value])
    ensures Normal(Dirname(t)) && |Dirname(t)| < |t|
  {
    assert |t| > 1;
    if LastSlash(t).Some? {
      var i := LastSlash(t).value;
      assert t[i - 1] != '/';
    }
  }

  lemma NoSlashAfter(t: string, i: nat, j: nat)
    requires i < j < |t| && '/' !in t[i + 1..]
    ensures t[j] != '/'
  {
    assert t[j] == t[i + 1..][j - i - 1];
  }

  lemma PrefixOfParent(t: string, entry: string)
    requires Normal(t) && t != "/" && Normal(entry) && entry != "/"
    ensures StartsWith(t, entry + "/") <==> entry == Dirname(t) || StartsWith(Dirname(t), entry + "/")
  {
    NormalDirname(t);
    var d, n := Dirname(t), |entry|;
    var i := if LastSlash(t).Some? then LastSlash(t).value else 0;
    assert '/' !in t[i + 1..];
    if i < n < |t| { NoSlashAfter(t, i, n); }
    assert StartsWith(t, entry + "/") ==> n < |t| && t[n] == '/' && t[..n] == entry;
    if 0 < i {
      assert entry == d ==> entry + "/" == t[..i + 1];
      assert n < i ==> d[..n + 1] == t[..n + 1];
    }
  }

  lemma {:induction false} AncestorsIff(t: string, entry: string)
    requires Normal(t) && Normal(entry)
    ensures entry in Ancestors(t) <==> entry == "/" || entry == t || StartsWith(t, entry + "/")
    decreases |t|
  {
    if t == "/" {
      assert Dirname(t) == "/";
    } else {
      NormalDirname(t);
      AncestorsIff(Dirname(t), entry);
      if entry != "/" { PrefixOfParent(t, entry); }
    }
  }

  /** A registered directory covers exactly itself and its descendants, except the root, which covers only itself. */
  lemma CoversIff(entry: string, t: string)
    requires Normal(t) && Normal(entry)
    ensures Covers(entry, t) <==> entry in Ancestors(t) && (entry != "/" || t == "/")
  {
    AncestorsIff(t, entry);
    if entry == "/" { NotDoubled(entry, t); }
  }

  lemma NotDoubled(entry: string, t: string)
    requires Normal(t) && entry == "/"
    ensures !StartsWith(t, entry + "/")
  {
    assert |t| > 1 ==> t[1] != '/';
    assert (entry + "/")[1] == '/';
  }

  /** Ignoring the root ignores nothing below it. */
  lemma RootCoversNothing()
    ensures !Covers("/", "/a") && "/" in Ancestors("/a")
  {
    assert Normal("/a") && Normal("/");
    AncestorsIff("/a", "/");
    CoversIff("/", "/a");
  }
}
