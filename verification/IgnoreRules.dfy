/** The rule of the filter in plain terms: which directories count, what the lists hold, and what is dropped and why. */
module IgnoreRules {
  import opened Wrappers
  import opened Text
  import opened Ignore
  import opened IgnoreTheorems

  // ---------- directories ----------

  /** `d` is `t` or a directory above it. */
  predicate Above(d: string, t: string) {
    Normal(d) && (d == "/" || d == t || d + "/" <= t)
  }

  /** Deepest first. */
  predicate Descending(dirs: seq<string>) {
    forall i, j :: 0 <= i < j < |dirs| ==> |dirs[i]| > |dirs[j]|
  }

  lemma {:induction false} AncestorsAre(t: string)
    requires Normal(t)
    ensures Descending(Ancestors(t)) && forall d :: d in Ancestors(t) <==> Above(d, t)
    decreases |t|
  {
    if t == "/" {
      assert Dirname(t) == "/";
    } else {
      NormalDirname(t);
      AncestorsAre(Dirname(t));
      var dirs, more := Ancestors(t), Ancestors(Dirname(t));
      assert dirs == [t] + more;
      forall i, j | 0 <= i < j < |dirs| ensures |dirs[i]| > |dirs[j]| {
        assert dirs[j] == more[j - 1] && more[0] == Dirname(t);
        assert i > 0 ==> dirs[i] == more[i - 1];
        assert j > 1 ==> |more[0]| > |more[j - 1]|;
      }
    }
    forall d ensures d in Ancestors(t) <==> Above(d, t) {
      if Normal(d) { AncestorsIff(t, d); }
      if d in Ancestors(t) { MembersNormal(t, d); }
    }
  }

  lemma {:induction false} MembersNormal(t: string, d: string)
    requires Normal(t) && d in Ancestors(t)
    ensures Normal(d)
    decreases |t|
  {
    if t == "/" {
      assert Dirname(t) == "/";
    } else if d != t {
      NormalDirname(t);
      assert Ancestors(t) == [t] + Ancestors(Dirname(t));
      MembersNormal(Dirname(t), d);
    }
  }

  /** Neither marked nor unreadable. */
  predicate Clear(probe: Probe, d: string) {
    !probe(d).MarkerFile? && !probe(d).Unreadable?
  }

  lemma {:induction false} DeepestMarker(probe: Probe, dirs: seq<string>, d: string)
    requires Descending(dirs)
    ensures FirstMarker(probe, dirs) == Some(d) <==>
            d in dirs && probe(d).MarkerFile? && forall e :: e in dirs && |e| > |d| ==> Clear(probe, e)
  {
    if dirs != [] {
      var head, tail := dirs[0], dirs[1..];
      assert dirs == [head] + tail;
      assert Descending(tail) by {
        forall i, j | 0 <= i < j < |tail|
          ensures |tail[i]| > |tail[j]| { assert tail[i] == dirs[i + 1] && tail[j] == dirs[j + 1]; }
      }
      forall e | e in tail ensures |head| > |e| {
        var j :| 0 <= j < |tail| && tail[j] == e;
        assert e == dirs[j + 1];
      }
      DeepestMarker(probe, tail, d);
    }
  }

  /** The marker that counts is in the deepest directory above that has one, and everything deeper can be read. */
  lemma MarkerIff(probe: Probe, t: string, d: string)
    requires Normal(t)
    ensures MarkerFor(probe, t) == Some(d) <==>
            Above(d, t) && probe(d).MarkerFile? && forall e :: Above(e, t) && |e| > |d| ==> Clear(probe, e)
  {
    AncestorsAre(t);
    assert StripTrailingSep(t) == t;
    DeepestMarker(probe, Ancestors(t), d);
  }

  /** An unreadable directory hides every marker at or above it. */
  lemma UnreadableHides(probe: Probe, t: string)
    requires Normal(t) && probe(t).Unreadable?
    ensures MarkerFor(probe, t) == None
  {
    assert StripTrailingSep(t) == t;
    assert Ancestors(t)[0] == t;
  }

  /** One trailing slash does not matter; the root keeps its own. */
  lemma TrailingSlash(p: string)
    ensures p != "" ==> StripTrailingSep(p + "/") == p
    ensures p == "/" || p == "" || p[|p| - 1] != '/' ==> StripTrailingSep(p) == p
  {
  }

  // ---------- parents of any path ----------

  predicate Slashes(s: string) {
    forall k :: 0 <= k < |s| ==> s[k] == '/'
  }

  lemma {:induction false} SlashesTrimmed(p: string, tail: string)
    requires p != "" && Slashes(tail) && (|p| == 1 || p[|p| - 1] != '/')
    ensures TrimSlashes(p + tail) == p
    decreases |tail|
  {
    if tail == "" {
      assert p + tail == p;
    } else {
      assert (p + tail)[..|p + tail| - 1] == p + tail[..|tail| - 1];
      SlashesTrimmed(p, tail[..|tail| - 1]);
    }
  }

  lemma {:induction false} SlashFound(head: string, name: string)
    requires '/' !in name
    requires head == "" || head[|head| - 1] == '/'
    ensures LastSlash(head + name) == if |head| <= 1 then None else Some(|head| - 1)
    decreases |name|
  {
    if name == "" {
      assert head + name == head;
    } else {
      var n := |name| - 1;
      assert (head + name)[..|head + name| - 1] == head + name[..n];
      assert name[n] in name;
      SlashFound(head, name[..n]);
    }
  }

  /** The parent of a path: what stands before its last name and the slash there; two leading slashes stay. */
  lemma DirnameOf(head: string, name: string, tail: string)
    requires name != "" && '/' !in name && Slashes(tail) && (head == "" || head[|head| - 1] == '/')
    ensures Dirname(head + name + tail) ==
            if head == "" then "." else if head == "/" then "/" else if head == "//" then "//" else head[..|head| - 1]
  {
    var p := head + name;
    LastOf(head, name);
    SlashesTrimmed(p, tail);
    SlashFound(head, name);
    assert (p + tail)[0] == p[0];
    if |head| > 1 { assert p[..|head| - 1] == head[..|head| - 1]; }
  }

  lemma LastOf(head: string, name: string)
    requires name != "" && '/' !in name
    ensures var p := head + name;
            p[|p| - 1] != '/' && (head == "" ==> p[0] != '/') && (head != "" ==> p[0] == head[0])
  {
    assert name[|name| - 1] in name && name[0] in name;
  }

  /** The root is its own parent, however many slashes it is written with. */
  lemma DirnameOfRoot(tail: string)
    requires Slashes(tail)
    ensures Dirname("/" + tail) == "/"
  {
    SlashesTrimmed("/", tail);
  }

  // ---------- ignored paths ----------

  /** The first listed path that is the directory or above it, by name. */
  lemma {:induction false} PathForIff(paths: seq<string>, cwd: string, e: string)
    ensures PathFor(paths, cwd) == Some(e) <==>
            exists k :: 0 <= k < |paths| && paths[k] == e && Holds(paths[k], StripTrailingSep(cwd))
                        && forall j :: 0 <= j < k ==> !Holds(paths[j], StripTrailingSep(cwd))
    decreases |paths|
  {
    if paths != [] {
      var t, tail := StripTrailingSep(cwd), paths[1..];
      PathForIff(tail, cwd, e);
      if k :| 0 <= k < |tail| && tail[k] == e && Holds(tail[k], t) && (forall j :: 0 <= j < k ==> !Holds(tail[j], t)) {
        assert paths[k + 1] == e;
        assert forall j :: 0 < j < k + 1 ==> paths[j] == tail[j - 1];
      }
      if k :|
          0 <= k < |paths| && paths[k] == e && Holds(paths[k], t) && (forall j :: 0 <= j < k ==> !Holds(paths[j], t)) {
        assert k > 0 ==> tail[k - 1] == e;
        assert forall j :: 0 <= j < k - 1 ==> tail[j] == paths[j + 1];
      }
    }
  }

  predicate Holds(entry: string, t: string) {
    t == entry || entry + "/" <= t
  }

  // ---------- what the lists hold ----------

  /** The last word about a path: added, removed, or none. */
  function LastPath(evs: seq<Event>, x: string): Option<bool> {
    if evs == [] then None
    else
      match evs[|evs| - 1]
      case AddPath(p) => if StripTrailingSep(p) == x then Some(true) else LastPath(evs[..|evs| - 1], x)
      case RemovePath(p) => if StripTrailingSep(p) == x then Some(false) else LastPath(evs[..|evs| - 1], x)
      case _ => LastPath(evs[..|evs| - 1], x)
  }

  /** The last word about a session; the empty id is never added. */
  function LastSession(evs: seq<Event>, x: string): Option<bool> {
    if evs == [] then None
    else
      match evs[|evs| - 1]
      case AddIgnoredSession(id) => if id == x && id != "" then Some(true) else LastSession(evs[..|evs| - 1], x)
      case RemoveIgnoredSession(id) => if id == x then Some(false) else LastSession(evs[..|evs| - 1], x)
      case _ => LastSession(evs[..|evs| - 1], x)
  }

  lemma {:induction false} WithoutMembers(s: seq<string>, x: string)
    requires Distinct(s)
    ensures Distinct(Without(s, x)) && forall y :: y in Without(s, x) <==> y in s && y != x
  {
    if s != [] {
      var head, tail := s[0], s[1..];
      assert s == [head] + tail;
      assert Distinct(tail) && head !in tail by {
        forall j | 0 <= j < |tail| ensures tail[j] != head { assert tail[j] == s[j + 1]; }
      }
      WithoutMembers(tail, x);
      if head != x { ConsDistinct(head, Without(tail, x)); }
    }
  }

  lemma AddMembers(s: seq<string>, x: string)
    requires Distinct(s) && x !in s
    ensures Distinct(s + [x]) && forall y :: y in s + [x] <==> y in s || y == x
  {
    forall i, j | 0 <= i < j < |s + [x]| ensures (s + [x])[i] != (s + [x])[j] { assert (s + [x])[i] in s; }
  }

  predicate DistinctLists(st: State) {
    Distinct(st.sessions) && Distinct(st.paths)
  }

  lemma {:induction false} PathsHold(probe: Probe, limits: Limits, evs: seq<Event>)
    ensures var st := Run(probe, limits, EMPTY, evs);
            Distinct(st.paths) && forall x :: x in st.paths <==> LastPath(evs, x) == Some(true)
    decreases |evs|
  {
    if evs != [] {
      var front, ev := evs[..|evs| - 1], evs[|evs| - 1];
      assert evs == front + [ev];
      PathsHold(probe, limits, front);
      RunSnoc(probe, limits, EMPTY, front, ev);
      var before := Run(probe, limits, EMPTY, front).paths;
      match ev
      case AddPath(p) => if StripTrailingSep(p) !in before { AddMembers(before, StripTrailingSep(p)); }
      case RemovePath(p) => WithoutMembers(before, StripTrailingSep(p));
      case _ =>
    }
  }

  /** After any run a path is listed exactly when the last word about it added it. */
  lemma PathListedIff(probe: Probe, limits: Limits, evs: seq<Event>, x: string)
    ensures x in Run(probe, limits, EMPTY, evs).paths <==> LastPath(evs, x) == Some(true)
  {
    PathsHold(probe, limits, evs);
  }

  /** A history without the entries that came before. */
  function Firsts(history: seq<string>): seq<string> {
    if history == [] then []
    else
      var front, x := history[..|history| - 1], history[|history| - 1];
      Firsts(front) + if x in front then [] else [x]
  }

  function PathEvents(history: seq<string>): seq<Event> {
    seq(|history|, k requires 0 <= k < |history| => AddPath(history[k]))
  }

  lemma {:induction false} FirstsMembers(history: seq<string>)
    ensures forall x :: x in Firsts(history) <==> x in history
  {
    if history != [] {
      FirstsMembers(history[..|history| - 1]);
      assert history == history[..|history| - 1] + [history[|history| - 1]];
    }
  }

  /** After any additions the paths are listed in the order in which each was added first. */
  lemma {:induction false} PathsAreFirsts(probe: Probe, limits: Limits, history: seq<string>)
    requires forall k :: 0 <= k < |history| ==> StripTrailingSep(history[k]) == history[k]
    ensures Run(probe, limits, EMPTY, PathEvents(history)) == EMPTY.(paths := Firsts(history))
    decreases |history|
  {
    if history != [] {
      var front, x := history[..|history| - 1], history[|history| - 1];
      assert history == front + [x] && PathEvents(history) == PathEvents(front) + [AddPath(x)];
      PathsAreFirsts(probe, limits, front);
      RunSnoc(probe, limits, EMPTY, PathEvents(front), AddPath(x));
      FirstsMembers(front);
      assert Firsts(front) + [] == Firsts(front);
    }
  }

  lemma {:induction false} SessionsHold(probe: Probe, limits: Limits, evs: seq<Event>)
    requires |evs| <= limits.sessions
    ensures var st := Run(probe, limits, EMPTY, evs);
            && Distinct(st.sessions) && |st.sessions| <= |evs|
            && forall x :: x in st.sessions <==> LastSession(evs, x) == Some(true)
    decreases |evs|
  {
    if evs != [] {
      var front, ev := evs[..|evs| - 1], evs[|evs| - 1];
      assert evs == front + [ev];
      SessionsHold(probe, limits, front);
      RunSnoc(probe, limits, EMPTY, front, ev);
      var before := Run(probe, limits, EMPTY, front).sessions;
      match ev
      case AddIgnoredSession(id) => if id != "" { SessionAdded(before, id, limits.sessions); }
      case RemoveIgnoredSession(id) =>
        WithoutMembers(before, id);
        WithoutShorter(before, id);
      case _ =>
    }
  }

  lemma SessionAdded(s: seq<string>, id: string, max: int)
    requires Distinct(s) && |s| < max
    ensures var n := AddSession(s, id, max);
            Distinct(n) && |n| <= |s| + 1 && forall y :: y in n <==> y in s || y == id
  {
    if id in s {
      WithoutMembers(s, id);
      WithoutShorter(s, id);
      AddMembers(Without(s, id), id);
    } else {
      AddMembers(s, id);
    }
  }

  /** As long as the list has room, a session is listed exactly when the last word about it added it. */
  lemma SessionListedIff(probe: Probe, limits: Limits, evs: seq<Event>, x: string)
    requires |evs| <= limits.sessions
    ensures x in Run(probe, limits, EMPTY, evs).sessions <==> LastSession(evs, x) == Some(true)
  {
    SessionsHold(probe, limits, evs);
  }

  // ---------- what is dropped, and why ----------

  /** The session is listed. */
  predicate BySession(st: State, input: Input, id: string) {
    input.sessionId == Some(id) && id != "" && id in st.sessions
  }

  /** A listed path holds the directory. */
  predicate ByPath(st: State, input: Input) {
    input.cwd.Some? && input.cwd.value != "" &&
      exists k :: 0 <= k < |st.paths| && Holds(st.paths[k], StripTrailingSep(input.cwd.value))
  }

  /** A marker counts for the directory. */
  predicate ByMarker(probe: Probe, input: Input) {
    input.cwd.Some? && input.cwd.value != "" && MarkerFor(probe, StripTrailingSep(input.cwd.value)).Some?
  }

  /** In every reached state a request is dropped for its session, else for a path, else for a marker, and kept
      otherwise. */
  lemma DroppedIff(probe: Probe, limits: Limits, evs: seq<Event>, input: Input)
    ensures var st := Run(probe, limits, EMPTY, evs);
            var answer := Evaluate(probe, limits, st, input).evaluation;
            var session := input.sessionId.Some? && BySession(st, input, input.sessionId.value);
            && (session <==> answer.DropSession?) && (session ==> answer == DropSession(input.sessionId.value))
            && (answer.DropPath? <==> !session && ByPath(st, input))
            && (answer.DropMarker? <==> !session && !ByPath(st, input) && ByMarker(probe, input))
  {
    var st := Run(probe, limits, EMPTY, evs);
    AnswerIs(probe, limits, evs, input);
    if input.cwd.Some? { SomePath(st.paths, input.cwd.value); }
  }

  lemma {:induction false} SomePath(paths: seq<string>, cwd: string)
    ensures PathFor(paths, cwd).Some? <==> exists k :: 0 <= k < |paths| && Holds(paths[k], StripTrailingSep(cwd))
    decreases |paths|
  {
    if paths != [] {
      SomePath(paths[1..], cwd);
      if k :| 0 <= k < |paths[1..]| && Holds(paths[1..][k], StripTrailingSep(cwd)) {
        assert Holds(paths[k + 1], StripTrailingSep(cwd));
      }
      if k :| 0 <= k < |paths| && Holds(paths[k], StripTrailingSep(cwd)) {
        assert k > 0 ==> Holds(paths[1..][k - 1], StripTrailingSep(cwd));
      }
    }
  }

  // ---------- the cache ----------

  predicate DistinctKeys(cache: seq<Entry>) {
    forall i, j :: 0 <= i < j < |cache| ==> cache[i].key != cache[j].key
  }

  lemma {:induction false} CachedIff(cache: seq<Entry>, key: string)
    ensures Cached(cache, key).None? <==> forall k :: 0 <= k < |cache| ==> cache[k].key != key
  {
    if cache != [] {
      CachedIff(cache[1..], key);
      assert forall k :: 0 < k < |cache| ==> cache[k] == cache[1..][k - 1];
      assert forall k :: 0 <= k < |cache[1..]| ==> cache[1..][k] == cache[k + 1];
    }
  }

  lemma {:induction false} StoreKeeps(cache: seq<Entry>, e: Entry)
    requires DistinctKeys(cache)
    ensures DistinctKeys(Store(cache, e))
    ensures forall x :: x in Store(cache, e) ==> x == e || x in cache
    ensures Cached(cache, e.key).None? ==> Store(cache, e) == cache + [e]
  {
    if cache != [] {
      var head, tail := cache[0], cache[1..];
      assert cache == [head] + tail;
      TailKeys(cache);
      if head.key == e.key {
        ConsKeys(e, tail);
      } else {
        StoreKeeps(tail, e);
        ConsKeys(head, Store(tail, e));
      }
    }
  }

  lemma TailKeys(cache: seq<Entry>)
    requires DistinctKeys(cache) && cache != []
    ensures DistinctKeys(cache[1..]) && forall x :: x in cache[1..] ==> x.key != cache[0].key
  {
    var tail := cache[1..];
    forall i, j | 0 <= i < j < |tail| ensures tail[i].key != tail[j].key {
      assert tail[i] == cache[i + 1] && tail[j] == cache[j + 1];
    }
    forall x | x in tail ensures x.key != cache[0].key {
      var j :| 0 <= j < |tail| && tail[j] == x;
      assert x == cache[j + 1];
    }
  }

  lemma ConsKeys(e: Entry, tail: seq<Entry>)
    requires DistinctKeys(tail) && forall x :: x in tail ==> x.key != e.key
    ensures DistinctKeys([e] + tail)
  {
    var all := [e] + tail;
    forall i, j | 0 <= i < j < |all| ensures all[i].key != all[j].key {
      assert all[j] == tail[j - 1] && tail[j - 1] in tail;
      assert i > 0 ==> all[i] == tail[i - 1];
    }
  }

  lemma {:induction false} DropForgets(cache: seq<Entry>, key: string)
    requires DistinctKeys(cache)
    ensures DistinctKeys(Drop(cache, key)) && Cached(Drop(cache, key), key).None?
    ensures forall x :: x in Drop(cache, key) <==> x in cache && x.key != key
  {
    if cache != [] {
      var head, tail := cache[0], cache[1..];
      assert cache == [head] + tail;
      TailKeys(cache);
      if head.key == key {
        CachedIff(tail, key);
      } else {
        DropForgets(tail, key);
        ConsKeys(head, Drop(tail, key));
      }
    }
  }

  lemma {:induction false} RunKeys(probe: Probe, limits: Limits, evs: seq<Event>)
    ensures DistinctKeys(Run(probe, limits, EMPTY, evs).cache)
    decreases |evs|
  {
    if evs != [] {
      var front, ev := evs[..|evs| - 1], evs[|evs| - 1];
      assert evs == front + [ev];
      RunKeys(probe, limits, front);
      RunSnoc(probe, limits, EMPTY, front, ev);
      var cache := Run(probe, limits, EMPTY, front).cache;
      match ev
      case Query(input) => if Truthy(input.cwd) {
        LookupKeys(probe, limits.cache, cache, input.cwd.value, input.conversation);
      }
      case Invalidate(cwd) => if cwd.Some? { DropForgets(cache, StripTrailingSep(cwd.value)); }
      case _ =>
    }
  }

  lemma LookupKeys(probe: Probe, capacity: int, cache: seq<Entry>, cwd: string, conversation: Option<string>)
    requires DistinctKeys(cache)
    ensures DistinctKeys(LookupMarker(probe, capacity, cache, cwd, conversation).cache)
  {
    var key := StripTrailingSep(cwd);
    if cache != [] { TailKeys(cache); }
    var e := Entry(key, conversation, MarkerFor(probe, key).Some?);
    StoreKeeps(cache, e);
    if cache != [] { StoreKeeps(cache[1..], e); }
  }

  /** Without an entry for the directory and the conversation, the answer is that of the files as they are now. */
  lemma NoHitIsFresh(probe: Probe, limits: Limits, st: State, input: Input)
    requires !Hit(st, input)
    ensures Evaluate(probe, limits, st, input).evaluation == Rule(probe, st, input)
  {
  }

  /** Once a directory is invalidated, or everything is, the files are looked at again, whatever they were in the
      run. */
  lemma InvalidatedIsFresh(before: Probe, now: Probe, limits: Limits, evs: seq<Event>,
      cwd: Option<string>, input: Input)
    requires input.cwd.Some? && (cwd.Some? ==> StripTrailingSep(cwd.value) == StripTrailingSep(input.cwd.value))
    ensures var st := Step(before, limits, Run(before, limits, EMPTY, evs), Invalidate(cwd));
            Evaluate(now, limits, st, input).evaluation == Rule(now, st, input)
  {
    RunKeys(before, limits, evs);
    if cwd.Some? { DropForgets(Run(before, limits, EMPTY, evs).cache, StripTrailingSep(cwd.value)); }
  }

  /** A directory looked up for the first time is stored last; only when the cache is full does one entry leave, the
      first. */
  lemma OldestLeaves(probe: Probe, capacity: int, cache: seq<Entry>, cwd: string, conversation: Option<string>)
    requires DistinctKeys(cache) && forall k :: 0 <= k < |cache| ==> cache[k].key != StripTrailingSep(cwd)
    ensures var next, n := LookupMarker(probe, capacity, cache, cwd, conversation).cache, |cache|;
            var gone := if n >= capacity && n > 0 then 1 else 0;
            |next| == n - gone + 1 && next[..n - gone] == cache[gone..] && next[n - gone].key == StripTrailingSep(cwd)
  {
    var key := StripTrailingSep(cwd);
    var e := Entry(key, conversation, MarkerFor(probe, key).Some?);
    CachedIff(cache, key);
    StoreKeeps(cache, e);
    if cache != [] {
      TailKeys(cache);
      CachedIff(cache[1..], key);
      StoreKeeps(cache[1..], e);
    }
  }
}
