/** MQTT topic filters: splitting into levels, matching as in section 4.7 of
    MQTT Version 3.1.1 (without the rule for topics that begin with '$'), and
    the Edge's dispatch over its five filters. */
module Topics {
  import opened Tables

  predicate NoSlash(s: string) { forall i | 0 <= i < |s| :: s[i] != '/' }

  function FindSlash(s: string): (p: nat)
    ensures p <= |s| && NoSlash(s[..p]) && (p < |s| ==> s[p] == '/')
    ensures NoSlash(s) <==> p == |s|
  {
    if s == "" || s[0] == '/' then 0
    else
      assert forall i | 1 <= i < |s| :: s[i] == s[1..][i - 1];
      1 + FindSlash(s[1..])
  }

  function Split(s: string): (levels: seq<string>)
    ensures levels != []
    decreases |s|
  {
    var p := FindSlash(s);
    if p == |s| then [s] else [s[..p]] + Split(s[p + 1..])
  }

  function Join(levels: seq<string>): string
    requires levels != []
  {
    if |levels| == 1 then levels[0] else levels[0] + "/" + Join(levels[1..])
  }

  // ---- Splitting and joining are inverse ------------------------------------

  lemma FindSlashAt(s: string, p: nat)
    requires p < |s| && NoSlash(s[..p]) && s[p] == '/'
    ensures FindSlash(s) == p
  {
    var q := FindSlash(s);
    assert forall i | 0 <= i < p :: s[..p][i] == s[i];
    assert forall i | 0 <= i < q :: s[..q][i] == s[i];
  }

  lemma SplitStep(s: string)
    ensures var p := FindSlash(s); Split(s) == if p == |s| then [s] else [s[..p]] + Split(s[p + 1..])
  {
    hide FindSlash, NoSlash;
  }

  lemma SplitAt(s: string, p: nat)
    requires p < |s| && NoSlash(s[..p]) && s[p] == '/'
    ensures Split(s) == [s[..p]] + Split(s[p + 1..])
  {
    hide FindSlash, NoSlash, Split;
    FindSlashAt(s, p);
    SplitStep(s);
  }

  lemma SplitNone(s: string)
    requires NoSlash(s)
    ensures Split(s) == [s]
  {
  }

  /** The levels of two strings joined by a slash are the levels of both. */
  lemma {:induction false} SplitConcat(a: string, b: string)
    ensures Split(a + "/" + b) == Split(a) + Split(b)
    decreases |a|
  {
    hide Split;
    var s := a + "/" + b;
    var p := FindSlash(a);
    assert s[..p] == a[..p] && s[p] == '/';
    SplitAt(s, p);
    if p == |a| {
      assert s[p + 1..] == b && a[..p] == a;
      SplitNone(a);
    } else {
      assert s[p + 1..] == a[p + 1..] + "/" + b;
      SplitConcat(a[p + 1..], b);
      SplitAt(a, p);
    }
  }

  lemma {:induction false} JoinOfSplit(s: string)
    ensures Join(Split(s)) == s
    decreases |s|
  {
    hide FindSlash, NoSlash, Split, Join;
    var p := FindSlash(s);
    SplitStep(s);
    if p < |s| {
      var rest := Split(s[p + 1..]);
      JoinOfSplit(s[p + 1..]);
      JoinStep(s[..p], rest);
      assert s == s[..p] + "/" + s[p + 1..];
    } else {
      JoinOne(s);
    }
  }

  lemma JoinOne(level: string)
    ensures Join([level]) == level
  {
  }

  lemma JoinStep(level: string, rest: seq<string>)
    requires rest != []
    ensures Join([level] + rest) == level + "/" + Join(rest)
  {
    assert ([level] + rest)[1..] == rest;
  }

  lemma {:induction false} SplitOfJoin(levels: seq<string>)
    requires levels != [] && forall i | 0 <= i < |levels| :: NoSlash(levels[i])
    ensures Split(Join(levels)) == levels
  {
    assert Split(levels[0]) == [levels[0]];
    if |levels| > 1 {
      SplitOfJoin(levels[1..]);
      SplitConcat(levels[0], Join(levels[1..]));
    }
  }

  lemma {:induction false} LevelsHaveNoSlash(s: string)
    ensures forall i | 0 <= i < |Split(s)| :: NoSlash(Split(s)[i])
    ensures |Split(s)| == 1 <==> NoSlash(s)
    decreases |s|
  {
    var p := FindSlash(s);
    if p < |s| {
      LevelsHaveNoSlash(s[p + 1..]);
    }
  }

  // ---- Matching -----------------------------------------------------------------

  // Level by level: '#' ends a filter and matches whatever is left, its parent
  // level included; '+' matches one level.
  predicate LevelsMatch(filter: seq<string>, topic: seq<string>) {
    if filter == [] then topic == []
    else if filter[0] == "#" then |filter| == 1
    else topic != [] && (filter[0] == "+" || filter[0] == topic[0]) && LevelsMatch(filter[1..], topic[1..])
  }

  predicate FilterMatches(filter: string, topic: string) { LevelsMatch(Split(filter), Split(topic)) }

  // The levels a filter spells out: all of them, or all but a closing '#'.
  function Spelled(filter: seq<string>): (n: nat)
    ensures n <= |filter|
  {
    if filter != [] && filter[|filter| - 1] == "#" then |filter| - 1 else |filter|
  }

  /** A filter matches exactly the topics that have its spelled-out levels, none
      of them '#', and no further level unless the filter closes with '#'. */
  lemma {:induction false} MatchesExactly(filter: seq<string>, topic: seq<string>)
    ensures LevelsMatch(filter, topic) <==>
            var n := Spelled(filter);
            && n <= |topic|
            && (forall i | 0 <= i < n :: filter[i] != "#" && (filter[i] == "+" || filter[i] == topic[i]))
            && (n < |filter| || |topic| == |filter|)
  {
    if filter != [] && filter[0] != "#" && topic != [] {
      MatchesExactly(filter[1..], topic[1..]);
      var n := Spelled(filter);
      assert Spelled(filter[1..]) == n - 1;
      assert forall i | 1 <= i < n && n <= |topic| ::
          filter[i] == filter[1..][i - 1] && topic[i] == topic[1..][i - 1];
      assert forall i | 0 <= i < n - 1 && n <= |topic| ::
          filter[1..][i] == filter[i + 1] && topic[1..][i] == topic[i + 1];
    }
  }

  // ---- The router -----------------------------------------------------------------

  class MqttMessageRouter {
    var handlers: map<string, nat>

    constructor ()
      ensures handlers == map[]
    {
      handlers := map[];
    }

    method RegisterHandler(filter: string, handler: Option<nat>)
      modifies this
      ensures handlers == if handler.None? then old(handlers) else old(handlers)[filter := handler.value]
    {
      if handler.None? {
        return;
      }
      handlers := handlers[filter := handler.value];
    }

    // input.find('/', start), with the input's length for "not found".
    method FindFrom(input: string, start: nat) returns (pos: nat)
      requires start <= |input|
      ensures pos == start + FindSlash(input[start..])
    {
      pos := start;
      while pos < |input| && input[pos] != '/'
        invariant start <= pos <= |input|
        invariant forall i | start <= i < pos :: input[i] != '/'
      {
        pos := pos + 1;
      }
      var rest := input[start..];
      assert forall i | 0 <= i < |rest| :: rest[i] == input[start + i];
      if pos < |input| {
        FindSlashAt(rest, pos - start);
      } else {
        assert NoSlash(rest);
      }
    }

    method SplitLevels(input: string) returns (levels: seq<string>)
      ensures levels == Split(input)
    {
      hide FindSlash, NoSlash, Split;
      levels := [];
      var start := 0;
      assert input[0..] == input;
      while start <= |input|
        invariant start <= |input|
        invariant levels + Split(input[start..]) == Split(input)
        decreases |input| - start
      {
        var pos := FindFrom(input, start);
        SplitStep(input[start..]);
        if pos == |input| {
          levels := levels + [input[start..]];
          return;
        }
        assert input[start..][..pos - start] == input[start..pos];
        assert input[start..][pos - start + 1..] == input[pos + 1..];
        assert levels + ([input[start..pos]] + Split(input[pos + 1..]))
            == (levels + [input[start..pos]]) + Split(input[pos + 1..]);
        levels := levels + [input[start..pos]];
        start := pos + 1;
      }
    }

    method TopicMatches(filter: string, topic: string) returns (matches: bool)
      ensures matches == FilterMatches(filter, topic)
    {
      var filterLevels := SplitLevels(filter);
      var topicLevels := SplitLevels(topic);
      for i := 0 to |filterLevels|
        invariant i <= |topicLevels|
        invariant LevelsMatch(filterLevels, topicLevels) == LevelsMatch(filterLevels[i..], topicLevels[i..])
      {
        assert filterLevels[i..][1..] == filterLevels[i + 1..];
        var level := filterLevels[i];
        if level == "#" {
          return i == |filterLevels| - 1;
        }
        if i >= |topicLevels| {
          return false;
        }
        assert topicLevels[i..][1..] == topicLevels[i + 1..];
        if level != "+" && level != topicLevels[i] {
          return false;
        }
      }
      return |filterLevels| == |topicLevels|;
    }

    // Which filter's handler a message goes to: the topic's own, if there is
    // one, else the first match in the map's unspecified order.
    method MessageRouter(topic: string) returns (chosen: Option<string>)
      ensures topic in handlers ==> chosen == Some(topic)
      ensures chosen.Some? ==> chosen.value in handlers && (chosen.value == topic || FilterMatches(chosen.value, topic))
      ensures chosen.None? ==> forall f | f in handlers :: !FilterMatches(f, topic)
    {
      if topic in handlers {
        return Some(topic);
      }
      var left := handlers.Keys;
      while left != {}
        invariant left <= handlers.Keys
        invariant forall f | f in handlers && f !in left :: !FilterMatches(f, topic)
      {
        var f :| f in left;
        var matches := TopicMatches(f, topic);
        if matches {
          return Some(f);
        }
        left := left - {f};
      }
      return None;
    }
  }

  // ---- The five registered filters -------------------------------------------------

  function AmrTopic(robot: string, rest: string): string { "amr" + "/" + (robot + "/" + rest) }

  const REGISTER := AmrTopic("register", "request")
  const STATUS := "status"
  const WILL := "will"
  const TASK_STATUS := "task/status"
  const GOODS_REQUEST := "task/goods/request"

  const KINDS := {STATUS, WILL, TASK_STATUS, GOODS_REQUEST}

  function RegisteredFilters(): set<string> {
    {REGISTER, AmrTopic("+", STATUS), AmrTopic("+", WILL), AmrTopic("+", GOODS_REQUEST), AmrTopic("+", TASK_STATUS)}
  }

  lemma RobotFiltersAre()
    ensures REGISTER == "amr/register/request"
    ensures AmrTopic("+", STATUS) == "amr/+/status" && AmrTopic("+", WILL) == "amr/+/will"
  {
  }

  lemma TaskFiltersAre()
    ensures AmrTopic("+", GOODS_REQUEST) == "amr/+/task/goods/request"
    ensures AmrTopic("+", TASK_STATUS) == "amr/+/task/status"
  {
  }

  lemma RegisteredFiltersAre()
    ensures RegisteredFilters() == {"amr/register/request", "amr/+/status", "amr/+/will",
                                    "amr/+/task/goods/request", "amr/+/task/status"}
  {
    hide AmrTopic;
    RobotFiltersAre();
    TaskFiltersAre();
  }

  lemma AmrLevels(robot: string, rest: string)
    ensures Split(AmrTopic(robot, rest)) == ["amr"] + Split(robot) + Split(rest)
  {
    SplitConcat("amr", robot + "/" + rest);
    SplitConcat(robot, rest);
    assert Split("amr") == ["amr"];
  }

  lemma KindLevels()
    ensures Split(STATUS) == ["status"] && Split(WILL) == ["will"]
    ensures Split(TASK_STATUS) == ["task", "status"]
    ensures Split(GOODS_REQUEST) == ["task", "goods", "request"]
    ensures Split("+") == ["+"] && Split("register") == ["register"] && Split("request") == ["request"]
  {
    hide Split;
    SplitNone("status");
    SplitNone("will");
    SplitNone("+");
    SplitNone("register");
    SplitNone("request");
    SplitNone("task");
    SplitNone("goods");
    assert TASK_STATUS == "task" + "/" + "status";
    SplitConcat("task", "status");
    assert GOODS_REQUEST == "task" + "/" + ("goods" + "/" + "request");
    SplitConcat("task", "goods" + "/" + "request");
    SplitConcat("goods", "request");
  }

  lemma FilterLevels()
    ensures Split(REGISTER) == ["amr", "register", "request"]
    ensures Split(AmrTopic("+", STATUS)) == ["amr", "+", "status"]
    ensures Split(AmrTopic("+", WILL)) == ["amr", "+", "will"]
    ensures Split(AmrTopic("+", TASK_STATUS)) == ["amr", "+", "task", "status"]
    ensures Split(AmrTopic("+", GOODS_REQUEST)) == ["amr", "+", "task", "goods", "request"]
  {
    hide Split, AmrTopic;
    KindLevels();
    AmrLevels("register", "request");
    AmrLevels("+", STATUS);
    AmrLevels("+", WILL);
    AmrLevels("+", TASK_STATUS);
    AmrLevels("+", GOODS_REQUEST);
  }

  lemma RegisteredLevels(f: string)
    requires f in RegisteredFilters()
    ensures Spelled(Split(f)) == |Split(f)| && 3 <= |Split(f)| <= 5
    ensures Split(f)[|Split(f)| - 1] != "+" && forall i | 0 <= i < |Split(f)| :: Split(f)[i] != "#"
  {
    hide Split, AmrTopic;
    FilterLevels();
  }

  // Two filters with equally many levels differ in the last one.
  lemma RegisteredDiffer(f: string, g: string)
    requires f in RegisteredFilters() && g in RegisteredFilters() && f != g
    requires |Split(f)| == |Split(g)|
    ensures Split(f)[|Split(f)| - 1] != Split(g)[|Split(g)| - 1]
  {
    hide Split, AmrTopic;
    FilterLevels();
  }

  /** No topic matches two of the five registered filters. */
  lemma FiltersAreDisjoint(f: string, g: string, topic: string)
    requires f in RegisteredFilters() && g in RegisteredFilters()
    requires FilterMatches(f, topic) && FilterMatches(g, topic)
    ensures f == g
  {
    hide Split, LevelsMatch, RegisteredFilters;
    RegisteredLevels(f);
    RegisteredLevels(g);
    MatchesExactly(Split(f), Split(topic));
    MatchesExactly(Split(g), Split(topic));
    if f != g {
      RegisteredDiffer(f, g);
    }
  }

  /** So the handler a message reaches does not depend on the map's order: with
      the five filters registered, whatever MessageRouter may answer for a topic
      is the one filter that matches it, or nothing when none does. */
  lemma DispatchIsDetermined(topic: string, chosen: Option<string>)
    requires topic in RegisteredFilters() ==> chosen == Some(topic)
    requires chosen.Some? ==>
               chosen.value in RegisteredFilters() && (chosen.value == topic || FilterMatches(chosen.value, topic))
    requires chosen.None? ==> forall f | f in RegisteredFilters() :: !FilterMatches(f, topic)
    ensures forall f | f in RegisteredFilters() :: chosen == Some(f) <==> FilterMatches(f, topic)
  {
    hide RegisteredFilters, FilterMatches;
    forall f | f in RegisteredFilters() ensures chosen == Some(f) <==> FilterMatches(f, topic) {
      if chosen.Some? {
        FilterMatchesItself(chosen.value);
        if FilterMatches(f, topic) {
          FiltersAreDisjoint(f, chosen.value, topic);
        }
      }
    }
  }

  lemma FilterMatchesItself(f: string)
    requires f in RegisteredFilters()
    ensures FilterMatches(f, f)
  {
    hide Split, LevelsMatch, RegisteredFilters;
    RegisteredLevels(f);
    MatchesExactly(Split(f), Split(f));
  }

  /** A robot's topic of some kind reaches the handler of that kind exactly when
      the robot's id has no slash in it. */
  lemma RoutesHomeExactly(robot: string, kind: string)
    requires kind in KINDS
    ensures FilterMatches(AmrTopic("+", kind), AmrTopic(robot, kind)) <==> NoSlash(robot)
  {
    hide Split, AmrTopic, LevelsMatch;
    AmrLevels(robot, kind);
    AmrLevels("+", kind);
    KindLevels();
    LevelsHaveNoSlash(robot);
    KindMatches(Split(robot), Split(kind));
  }

  lemma KindMatches(robot: seq<string>, kind: seq<string>)
    requires robot != [] && kind != [] && forall i | 0 <= i < |kind| :: kind[i] != "#"
    ensures LevelsMatch(["amr"] + ["+"] + kind, ["amr"] + robot + kind) <==> |robot| == 1
  {
    var f, t := ["amr"] + ["+"] + kind, ["amr"] + robot + kind;
    hide LevelsMatch;
    MatchesExactly(f, t);
    assert f[|f| - 1] == kind[|kind| - 1];
    assert forall i | 2 <= i < |f| :: f[i] == kind[i - 2];
    if |robot| == 1 {
      assert forall i | 2 <= i < |t| :: t[i] == kind[i - 2];
    }
  }
}
