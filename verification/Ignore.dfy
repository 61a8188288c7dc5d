/**
 The filter that decides which requests are not recorded, after src/ignore.js, with POSIX paths. Looking for a marker
 file in one directory is a parameter; JavaScript sets and maps are sequences in insertion order.
 */
module Ignore {
  import opened Wrappers
  import opened Text

  // ---------- paths ----------

  function StripTrailingSep(p: string): string {
    if |p| > 1 && p[|p| - 1] == '/' then p[..|p| - 1] else p
  }

  /** Without its trailing slashes, but at least one character. */
  function TrimSlashes(p: string): string {
    if |p| > 1 && p[|p| - 1] == '/' then TrimSlashes(p[..|p| - 1]) else p
  }

  /** The position of the last slash other than a leading one. */
  function LastSlash(p: string): (i: Option<nat>)
    ensures i.Some? ==> 1 <= i.value < |p| && p[i.value] == '/' && '/' !in p[i.value + 1..]
    ensures i.None? ==> p == "" || '/' !in p[1..]
  {
    if |p| <= 1 then None
    else if p[|p| - 1] == '/' then Some(|p| - 1)
    else
      var front := p[..|p| - 1];
      var i := LastSlash(front);
      assert i.Some? ==> p[i.value + 1..] == front[i.value + 1..] + [p[|p| - 1]];
      assert p[1..] == front[1..] + [p[|p| - 1]];
      i
  }

  /** `path.posix.dirname` */
  function Dirname(p: string): string {
    if p == "" then "."
    else
      var t := TrimSlashes(p);
      var i := LastSlash(t);
      if i.None? then if p[0] == '/' then "/" else "."
      else if p[0] == '/' && i.value == 1 then "//"
      else t[..i.value]
  }

  function Depth(p: string): nat {
    if p == "/" || p == "." then 0 else |p| + 1
  }

  lemma {:induction false} TrimShorter(p: string)
    ensures TrimSlashes(p) <= p && (p != "" ==> TrimSlashes(p) != "")
    decreases |p|
  {
    if |p| > 1 && p[|p| - 1] == '/' { TrimShorter(p[..|p| - 1]); }
  }

  lemma DirnameShrinks(p: string)
    ensures Dirname(p) == p || Depth(Dirname(p)) < Depth(p)
  {
    TrimShorter(p);
    if p != "" && LastSlash(TrimSlashes(p)).Some? {
      var t := TrimSlashes(p);
      var i := LastSlash(t).value;
      assert |t[..i]| < |p|;
    }
  }

  // ---------- markers ----------

  datatype Found = MarkerFile | NotAFile | Missing | Unreadable

  type Probe = string -> Found

  /** A directory and its ancestors, up to where `dirname` stays. */
  function Ancestors(dir: string): (dirs: seq<string>)
    ensures dirs != [] && dirs[0] == dir
    decreases Depth(dir)
  {
    DirnameShrinks(dir);
    if Dirname(dir) == dir then [dir] else [dir] + Ancestors(Dirname(dir))
  }

  /** The first directory with a marker; an unreadable one ends the search. */
  function FirstMarker(probe: Probe, dirs: seq<string>): Option<string> {
    if dirs == [] then None
    else if probe(dirs[0]).MarkerFile? then Some(dirs[0])
    else if probe(dirs[0]).Unreadable? then None
    else FirstMarker(probe, dirs[1..])
  }

  function MarkerFor(probe: Probe, cwd: string): Option<string> {
    FirstMarker(probe, Ancestors(StripTrailingSep(cwd)))
  }

  method FindMarker(probe: Probe, cwd: string) returns (marker: Option<string>)
    ensures marker == MarkerFor(probe, cwd)
  {
    var dir := StripTrailingSep(cwd);
    var previous: Option<string> := None;
    while Some(dir) != previous
      invariant previous == Some(dir) || FirstMarker(probe, Ancestors(dir)) == MarkerFor(probe, cwd)
      invariant previous == Some(dir) ==> MarkerFor(probe, cwd) == None
      decreases Depth(dir), previous != Some(dir)
    {
      if probe(dir).MarkerFile? { return Some(dir); }
      if probe(dir).Unreadable? { return None; }
      DirnameShrinks(dir);
      assert Dirname(dir) == dir ==> Ancestors(dir)[1..] == [];
      assert Dirname(dir) != dir ==> Ancestors(dir)[1..] == Ancestors(Dirname(dir));
      previous, dir := Some(dir), Dirname(dir);
    }
    return None;
  }

  // ---------- state ----------

  datatype Entry = Entry(key: string, conversation: Option<string>, hit: bool)

  datatype State = State(sessions: seq<string>, paths: seq<string>, cache: seq<Entry>)

  datatype Input = Input(sessionId: Option<string>, cwd: Option<string>, conversation: Option<string>)

  datatype Evaluation = Pass | DropSession(id: string) | DropPath(path: string) | DropMarker(dir: string)

  datatype Limits = Limits(sessions: int, cache: int)

  function Without(s: seq<string>, x: string): seq<string> {
    if s == [] then [] else if s[0] == x then s[1..] else [s[0]] + Without(s[1..], x)
  }

  /** `size > max`, dropping from the front. */
  function Evict(s: seq<string>, max: int): seq<string>
    decreases |s|
  {
    if |s| > max && s != [] then Evict(s[1..], max) else s
  }

  function AddSession(s: seq<string>, id: string, max: int): seq<string> {
    if id in s then Without(s, id) + [id] else Evict(s + [id], max)
  }

  predicate Covers(entry: string, target: string) {
    target == entry || StartsWith(target, entry + "/")
  }

  function PathFor(paths: seq<string>, cwd: string): Option<string> {
    if paths == [] then None
    else if Covers(paths[0], StripTrailingSep(cwd)) then Some(paths[0])
    else PathFor(paths[1..], cwd)
  }

  function Cached(cache: seq<Entry>, key: string): Option<Entry> {
    if cache == [] then None else if cache[0].key == key then Some(cache[0]) else Cached(cache[1..], key)
  }

  /** `Map.set`: a known key keeps its place. */
  function Store(cache: seq<Entry>, e: Entry): seq<Entry> {
    if cache == [] then [e] else if cache[0].key == e.key then [e] + cache[1..] else [cache[0]] + Store(cache[1..], e)
  }

  function Drop(cache: seq<Entry>, key: string): seq<Entry> {
    if cache == [] then [] else if cache[0].key == key then cache[1..] else [cache[0]] + Drop(cache[1..], key)
  }

  datatype Lookup = Lookup(marker: Option<string>, cache: seq<Entry>)

  /** Through the cache; a hit answers with the directory asked for, not the one that holds the marker. */
  function LookupMarker(probe: Probe, capacity: int, cache: seq<Entry>, cwd: string,
      conversation: Option<string>): Lookup {
    var key := StripTrailingSep(cwd);
    var cached := Cached(cache, key);
    if cached.Some? && cached.value.conversation == conversation then
      Lookup(if cached.value.hit then Some(key) else None, cache)
    else
      var marker := MarkerFor(probe, key);
      var room := if |cache| >= capacity && cache != [] then cache[1..] else cache;
      Lookup(marker, Store(room, Entry(key, conversation, marker.Some?)))
  }

  function Truthy(s: Option<string>): bool {
    s.Some? && s.value != ""
  }

  datatype Answer = Answer(evaluation: Evaluation, st: State)

  function Evaluate(probe: Probe, limits: Limits, st: State, input: Input): Answer {
    if Truthy(input.sessionId) && input.sessionId.value in st.sessions
      then Answer(DropSession(input.sessionId.value), st)
    else if !Truthy(input.cwd) then Answer(Pass, st)
    else if PathFor(st.paths, input.cwd.value).Some? then Answer(DropPath(PathFor(st.paths, input.cwd.value).value), st)
    else
      var l := LookupMarker(probe, limits.cache, st.cache, input.cwd.value, input.conversation);
      Answer(if l.marker.Some? then DropMarker(l.marker.value) else Pass, st.(cache := l.cache))
  }

  datatype Event =
    | Query(input: Input)
    | AddIgnoredSession(id: string)
    | RemoveIgnoredSession(id: string)
    | AddPath(path: string)
    | RemovePath(path: string)
    | Invalidate(cwd: Option<string>)

  function Step(probe: Probe, limits: Limits, st: State, ev: Event): State {
    match ev
    case Query(input) => Evaluate(probe, limits, st, input).st
    case AddIgnoredSession(id) => if id == "" then st else st.(sessions := AddSession(st.sessions, id, limits.sessions))
    case RemoveIgnoredSession(id) => st.(sessions := Without(st.sessions, id))
    case AddPath(path) =>
      var key := StripTrailingSep(path);
      if key in st.paths then st else st.(paths := st.paths + [key])
    case RemovePath(path) => st.(paths := Without(st.paths, StripTrailingSep(path)))
    case Invalidate(cwd) => st.(cache := if cwd.None? then [] else Drop(st.cache, StripTrailingSep(cwd.value)))
  }

  const EMPTY := State([], [], [])

  // ---------- the imperative form ----------

  class IgnoreFilter {
    const probe: Probe
    const limits: Limits
    var ignoredSessions: seq<string>
    var ignoredPaths: seq<string>
    var ctvsignoreCache: seq<Entry>

    function Abs(): State
      reads this
    {
      State(ignoredSessions, ignoredPaths, ctvsignoreCache)
    }

    constructor (probe: Probe, limits: Limits)
      ensures Abs() == EMPTY && this.probe == probe && this.limits == limits
    {
      this.probe, this.limits := probe, limits;
      ignoredSessions, ignoredPaths, ctvsignoreCache := [], [], [];
    }

    /** Reports false for the empty id, which the program refuses. */
    method AddSessionId(id: string) returns (ok: bool)
      modifies this`ignoredSessions
      ensures Abs() == Step(probe, limits, old(Abs()), AddIgnoredSession(id)) && ok == (id != "")
    {
      if id == "" { return false; }
      if id in ignoredSessions {
        ignoredSessions := Without(ignoredSessions, id) + [id];
        return true;
      }
      ignoredSessions := ignoredSessions + [id];
      while |ignoredSessions| > limits.sessions
        invariant Evict(ignoredSessions, limits.sessions) == Evict(old(ignoredSessions) + [id], limits.sessions)
        decreases |ignoredSessions|
      {
        if ignoredSessions == [] { break; }
        ignoredSessions := ignoredSessions[1..];
      }
      return true;
    }

    method RemoveSessionId(id: string) returns (removed: bool)
      modifies this`ignoredSessions
      ensures Abs() == Step(probe, limits, old(Abs()), RemoveIgnoredSession(id)) &&
        removed == (id in old(ignoredSessions))
    {
      removed := id in ignoredSessions;
      ignoredSessions := Without(ignoredSessions, id);
    }

    method AddIgnoredPath(path: string) returns (added: bool)
      modifies this`ignoredPaths
      ensures Abs() == Step(probe, limits, old(Abs()), AddPath(path)) &&
        added == (StripTrailingSep(path) !in old(ignoredPaths))
    {
      var key := StripTrailingSep(path);
      added := key !in ignoredPaths;
      if added { ignoredPaths := ignoredPaths + [key]; }
    }

    method RemoveIgnoredPath(path: string) returns (removed: bool)
      modifies this`ignoredPaths
      ensures Abs() == Step(probe, limits, old(Abs()), RemovePath(path)) &&
        removed == (StripTrailingSep(path) in old(ignoredPaths))
    {
      var key := StripTrailingSep(path);
      removed := key in ignoredPaths;
      ignoredPaths := Without(ignoredPaths, key);
    }

    method InvalidateCtvsignoreCache(cwd: Option<string>)
      modifies this`ctvsignoreCache
      ensures Abs() == Step(probe, limits, old(Abs()), Invalidate(cwd))
    {
      ctvsignoreCache := if cwd.None? then [] else Drop(ctvsignoreCache, StripTrailingSep(cwd.value));
    }

    method IgnoredPathFor(cwd: string) returns (entry: Option<string>)
      ensures entry == PathFor(ignoredPaths, cwd)
    {
      var target := StripTrailingSep(cwd);
      for k := 0 to |ignoredPaths|
        invariant PathFor(ignoredPaths[k..], cwd) == PathFor(ignoredPaths, cwd)
      {
        assert ignoredPaths[k..][1..] == ignoredPaths[k + 1..];
        if Covers(ignoredPaths[k], target) { return Some(ignoredPaths[k]); }
      }
      assert ignoredPaths[|ignoredPaths|..] == [];
      return None;
    }

    method LookupCtvsIgnoreMarker(cwd: string, conversation: Option<string>) returns (marker: Option<string>)
      modifies this`ctvsignoreCache
      ensures Lookup(marker, ctvsignoreCache) ==
        LookupMarker(probe, limits.cache, old(ctvsignoreCache), cwd, conversation)
    {
      var key := StripTrailingSep(cwd);
      var cached := Cached(ctvsignoreCache, key);
      if cached.Some? && cached.value.conversation == conversation {
        return if cached.value.hit then Some(key) else None;
      }
      marker := FindMarker(probe, key);
      if |ctvsignoreCache| >= limits.cache && ctvsignoreCache != [] {
        ctvsignoreCache := ctvsignoreCache[1..];
      }
      ctvsignoreCache := Store(ctvsignoreCache, Entry(key, conversation, marker.Some?));
    }

    method ShouldDrop(input: Input) returns (drop: bool)
      modifies this`ctvsignoreCache
      ensures var answer := Evaluate(probe, limits, old(Abs()), input);
              drop == !answer.evaluation.Pass? && Abs() == answer.st
    {
      if Truthy(input.sessionId) && input.sessionId.value in ignoredSessions { return true; }
      if Truthy(input.cwd) {
        var entry := IgnoredPathFor(input.cwd.value);
        if entry.Some? { return true; }
        var marker := LookupCtvsIgnoreMarker(input.cwd.value, input.conversation);
        if marker.Some? { return true; }
      }
      return false;
    }

    method EvaluateInput(input: Input) returns (evaluation: Evaluation)
      modifies this`ctvsignoreCache
      ensures Answer(evaluation, Abs()) == Evaluate(probe, limits, old(Abs()), input)
    {
      if Truthy(input.sessionId) && input.sessionId.value in ignoredSessions {
        return DropSession(input.sessionId.value);
      }
      if Truthy(input.cwd) {
        var entry := IgnoredPathFor(input.cwd.value);
        if entry.Some? { return DropPath(entry.value); }
        var marker := LookupCtvsIgnoreMarker(input.cwd.value, input.conversation);
        if marker.Some? { return DropMarker(marker.value); }
      }
      return Pass;
    }
  }
}
