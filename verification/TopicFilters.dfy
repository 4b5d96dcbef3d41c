/**
 MQTT topic filters (mqtt_lite.py, config.py): matching, and the narrowing test that
 decides whether a requested filter stays inside an allowed one.
 MQTT 3.1.1, section 4.7.
*/
module TopicFilters {

  type Levels = seq<string>

  const LITERAL_A: string := "a"
  const LITERAL_B: string := "b"

  // ------------------------------------------------------------------ str.split("/")

  function Split(s: string): (levels: Levels)
    ensures |levels| >= 1
  {
    if s == "" then [""]
    else
      var rest := Split(s[1..]);
      if s[0] == '/' then [""] + rest else [[s[0]] + rest[0]] + rest[1..]
  }

  function Join(levels: Levels): string {
    if levels == [] then ""
    else if |levels| == 1 then levels[0] else levels[0] + "/" + Join(levels[1..])
  }

  lemma {:induction false} SplitHasNoSlash(s: string)
    ensures forall l :: l in Split(s) ==> '/' !in l
  {
    if s != "" { SplitHasNoSlash(s[1..]); }
  }

  lemma {:induction false} JoinAfterSlash(rest: Levels)
    requires rest != []
    ensures Join([""] + rest) == "/" + Join(rest)
  {
    assert ([""] + rest)[1..] == rest;
  }

  lemma {:induction false} JoinOneMore(c: char, rest: Levels)
    requires rest != []
    ensures Join([[c] + rest[0]] + rest[1..]) == [c] + Join(rest)
  {
    var grown := [[c] + rest[0]] + rest[1..];
    assert grown[1..] == rest[1..];
    if |rest| > 1 { assert [c] + (rest[0] + "/" + Join(rest[1..])) == ([c] + rest[0]) + "/" + Join(rest[1..]); }
  }

  lemma {:induction false} JoinSplit(s: string)
    ensures Join(Split(s)) == s
  {
    if s != "" {
      hide Join;
      JoinSplit(s[1..]);
      if s[0] == '/' { JoinAfterSlash(Split(s[1..])); } else { JoinOneMore(s[0], Split(s[1..])); }
      assert [s[0]] + s[1..] == s;
    } else {
      assert Join([""]) == "";
    }
  }

  lemma {:induction false} SplitWord(word: string)
    requires '/' !in word
    ensures Split(word) == [word]
  {
    if word != "" {
      SplitWord(word[1..]);
      assert [word[0]] + word[1..] == word;
    }
  }

  lemma {:induction false} SplitSlash(word: string, rest: string)
    requires '/' !in word
    ensures Split(word + "/" + rest) == [word] + Split(rest)
  {
    var s := word + "/" + rest;
    if word == "" {
      assert s[1..] == rest;
    } else {
      assert s[1..] == word[1..] + "/" + rest;
      SplitSlash(word[1..], rest);
      assert [word[0]] + word[1..] == word;
      assert ([word[1..]] + Split(rest))[1..] == Split(rest);
    }
  }

  lemma {:induction false} SplitJoin(levels: Levels)
    requires levels != [] && forall l :: l in levels ==> '/' !in l
    ensures Split(Join(levels)) == levels
  {
    if |levels| == 1 {
      SplitWord(levels[0]);
    } else {
      SplitJoin(levels[1..]);
      SplitSlash(levels[0], Join(levels[1..]));
    }
  }

  // ------------------------------------------------------------------ the source's functions

  predicate StartsWith(s: string, c: char) { s != "" && s[0] == c }

  predicate LeadingWildcard(filter: string) { StartsWith(filter, '+') || StartsWith(filter, '#') }

  /** The loop of `topic_matches` from level index on. */
  predicate LevelsMatch(filter: Levels, topic: Levels) {
    if filter == [] then topic == []
    else if filter[0] == "#" then true
    else if topic == [] then false
    else if filter[0] != "+" && filter[0] != topic[0] then false
    else LevelsMatch(filter[1..], topic[1..])
  }

  predicate TopicMatches(filter: string, topic: string) {
    if StartsWith(topic, '$') && LeadingWildcard(filter) then false
    else LevelsMatch(Split(filter), Split(topic))
  }

  /** The loop of `filter_covers` from level index on. */
  predicate LevelsCover(allowed: Levels, requested: Levels) {
    if allowed == [] then requested == []
    else if allowed[0] == "#" then true
    else if requested == [] then false
    else if requested[0] == "#" then false
    else if allowed[0] == "+" then LevelsCover(allowed[1..], requested[1..])
    else if requested[0] != allowed[0] then false
    else LevelsCover(allowed[1..], requested[1..])
  }

  predicate FilterCovers(allowed: string, requested: string) {
    if StartsWith(requested, '$') && LeadingWildcard(allowed) then false
    else LevelsCover(Split(allowed), Split(requested))
  }

  predicate ValidLevels(levels: Levels) {
    forall i :: 0 <= i < |levels| ==>
      && ('#' in levels[i] ==> levels[i] == "#" && i == |levels| - 1)
      && ('+' in levels[i] ==> levels[i] == "+")
  }

  /** `valid_topic_filter`. */
  predicate ValidFilter(filter: string) { ValidLevels(Split(filter)) }

  /** A topic name carries no wildcard (section 4.7.1). The client does not refuse the empty
      name, so it is included here; `NarrowsNamed` leaves it out. */
  predicate Topic(topic: string) { '#' !in topic && '+' !in topic }

  /** What narrowing is meant to guarantee. */
  ghost predicate Narrows(allowed: string, requested: string) {
    forall topic :: Topic(topic) && TopicMatches(requested, topic) ==> TopicMatches(allowed, topic)
  }

  /** The same over topic names of at least one character (section 4.7.3). */
  ghost predicate NarrowsNamed(allowed: string, requested: string) {
    forall topic :: topic != "" && Topic(topic) && TopicMatches(requested, topic) ==> TopicMatches(allowed, topic)
  }

  // ------------------------------------------------------------------ section 4.7

  /** A level that is named, or left open by '+'. */
  predicate LevelFits(filter: Levels, topic: Levels, i: nat)
    requires i < |filter| && i < |topic|
  {
    filter[i] == "+" || filter[i] == topic[i]
  }

  /** A final '#' stands for its parent and any number of levels below it; otherwise there is a level
      for each level. */
  predicate LevelsFit(filter: Levels, topic: Levels) {
    var n := if filter != [] && filter[|filter| - 1] == "#" then |filter| - 1 else |filter|;
    (if n < |filter| then n <= |topic| else n == |topic|) && forall i: nat :: i < n && i < |topic| ==> LevelFits(filter, topic, i)
  }

  /** Section 4.7, with the rule for topics that begin with '$' (4.7.2). */
  predicate Fits(filter: string, topic: string) {
    !(StartsWith(topic, '$') && LeadingWildcard(filter)) && LevelsFit(Split(filter), Split(topic))
  }

  lemma {:induction false} LevelsMatchIsFit(filter: Levels, topic: Levels)
    requires ValidLevels(filter)
    ensures LevelsMatch(filter, topic) <==> LevelsFit(filter, topic)
  {
    if filter != [] && filter[0] != "#" && topic != [] {
      TailIsValid(filter);
      LevelsMatchIsFit(filter[1..], topic[1..]);
      FitsFromFront(filter, topic);
    }
  }

  lemma {:induction false} FitsFromFront(filter: Levels, topic: Levels)
    requires filter != [] && filter[0] != "#" && topic != []
    ensures LevelsFit(filter, topic) <==> LevelFits(filter, topic, 0) && LevelsFit(filter[1..], topic[1..])
  {
    if LevelsFit(filter, topic) {
      forall i: nat | i < |filter| - 1 && i < |topic| - 1 && (filter[|filter| - 1] == "#" ==> i < |filter| - 2)
        ensures LevelFits(filter[1..], topic[1..], i)
      {
        assert LevelFits(filter, topic, i + 1);
      }
    }
    if LevelFits(filter, topic, 0) && LevelsFit(filter[1..], topic[1..]) {
      forall i: nat | i < |filter| && i < |topic| && (filter[|filter| - 1] == "#" ==> i < |filter| - 1)
        ensures LevelFits(filter, topic, i)
      {
        if i > 0 { assert LevelFits(filter[1..], topic[1..], i - 1); }
      }
    }
  }

  /** On valid filters the code's test is section 4.7. */
  lemma {:induction false} MatchingIsSection47(filter: string, topic: string)
    requires ValidFilter(filter)
    ensures TopicMatches(filter, topic) <==> Fits(filter, topic)
  {
    LevelsMatchIsFit(Split(filter), Split(topic));
  }

  // ------------------------------------------------------------------ the loops as the source runs them

  method FilterCoversLoop(allowed: string, requested: string) returns (r: bool)
    ensures r == FilterCovers(allowed, requested)
  {
    if StartsWith(requested, '$') && LeadingWildcard(allowed) {
      return false;
    }
    var a, q := Split(allowed), Split(requested);
    for i := 0 to |a|
      invariant i <= |q|
      invariant LevelsCover(a, q) == LevelsCover(a[i..], q[i..])
    {
      assert a[i..][1..] == a[i + 1..];
      if a[i] == "#" {
        return true;
      }
      if i >= |q| {
        return false;
      }
      assert q[i..][1..] == q[i + 1..];
      if q[i] == "#" {
        return false;
      }
      if a[i] != "+" && q[i] != a[i] {
        return false;
      }
    }
    return |a| == |q|;
  }

  method TopicMatchesLoop(filter: string, topic: string) returns (r: bool)
    ensures r == TopicMatches(filter, topic)
  {
    if StartsWith(topic, '$') && LeadingWildcard(filter) {
      return false;
    }
    var f, t := Split(filter), Split(topic);
    for i := 0 to |f|
      invariant i <= |t|
      invariant LevelsMatch(f, t) == LevelsMatch(f[i..], t[i..])
    {
      assert f[i..][1..] == f[i + 1..];
      if f[i] == "#" {
        return true;
      }
      if i >= |t| {
        return false;
      }
      assert t[i..][1..] == t[i + 1..];
      if f[i] != "+" && f[i] != t[i] {
        return false;
      }
    }
    return |f| == |t|;
  }

  // ------------------------------------------------------------------ soundness

  lemma {:induction false} CoverIsSound(allowed: Levels, requested: Levels, topic: Levels)
    requires LevelsCover(allowed, requested) && LevelsMatch(requested, topic)
    ensures LevelsMatch(allowed, topic)
  {
    if allowed != [] && allowed[0] != "#" {
      CoverIsSound(allowed[1..], requested[1..], topic[1..]);
    }
  }

  /** Literal first levels carry the first character of a matching topic. */
  lemma {:induction false} LiteralHead(filter: string, topic: string)
    requires LevelsMatch(Split(filter), Split(topic)) && !LeadingWildcard(filter)
    requires ValidFilter(filter)
    ensures Split(filter)[0] == Split(topic)[0]
    ensures StartsWith(topic, '$') ==> StartsWith(filter, '$')
  {
    JoinSplit(filter);
    JoinSplit(topic);
    assert Split(filter)[0] != "#" && Split(filter)[0] != "+";
    if topic != "" && topic[0] != '/' { assert Split(topic)[0][0] == topic[0]; }
    if filter != "" && filter[0] == '/' { assert Split(filter)[0] == ""; }
  }

  lemma {:induction false} CoversIsSound(allowed: string, requested: string)
    requires FilterCovers(allowed, requested) && ValidFilter(requested)
    ensures Narrows(allowed, requested)
  {
    forall topic | Topic(topic) && TopicMatches(requested, topic) ensures TopicMatches(allowed, topic) {
      CoverIsSound(Split(allowed), Split(requested), Split(topic));
      if StartsWith(topic, '$') { LiteralHead(requested, topic); }
    }
  }

  // ------------------------------------------------------------------ a witness for every refusal

  predicate PlainLevel(level: string) { '/' !in level && '#' !in level && '+' !in level }

  /** A level that '+' matches and this allowed level does not. */
  function Other(level: string): (other: string)
    ensures PlainLevel(other) && other != level && other != "" && !StartsWith(other, '$')
  {
    if level == LITERAL_A then LITERAL_B else LITERAL_A
  }

  /** Some topic levels the requested filter matches. */
  function Instance(requested: Levels): Levels {
    if requested == [] || requested[0] == "#" then []
    else [if requested[0] == "+" then LITERAL_A else requested[0]] + Instance(requested[1..])
  }

  /** Topic levels that a refused request matches and the allowed filter does not. */
  function Witness(allowed: Levels, requested: Levels): Levels {
    if allowed == [] then
      if requested != [] && requested[0] == "#" then [LITERAL_A] else Instance(requested)
    else if requested == [] || requested[0] == "#" then []
    else if allowed[0] == "+" then
      [if requested[0] == "+" then LITERAL_A else requested[0]] + Witness(allowed[1..], requested[1..])
    else if requested[0] == allowed[0] then [requested[0]] + Witness(allowed[1..], requested[1..])
    else [if requested[0] == "+" then Other(allowed[0]) else requested[0]] + Instance(requested[1..])
  }

  lemma {:induction false} InstanceMatches(requested: Levels)
    requires ValidLevels(requested) && forall l :: l in requested ==> '/' !in l
    ensures LevelsMatch(requested, Instance(requested))
    ensures forall l :: l in Instance(requested) ==> PlainLevel(l)
    ensures |Instance(requested)| <= |requested|
  {
    if requested != [] && requested[0] != "#" {
      TailIsValid(requested);
      InstanceMatches(requested[1..]);
    }
  }

  lemma {:induction false} TailIsValid(levels: Levels)
    requires levels != [] && ValidLevels(levels)
    ensures ValidLevels(levels[1..])
    ensures levels[0] == "#" ==> |levels| == 1
    ensures levels[0] != "#" ==> '#' !in levels[0]
  {
    forall i | 0 <= i < |levels[1..]|
      ensures '#' in levels[1..][i] ==> levels[1..][i] == "#" && i == |levels[1..]| - 1
      ensures '+' in levels[1..][i] ==> levels[1..][i] == "+" {
      assert levels[1..][i] == levels[i + 1];
    }
  }

  /** The refused request matches its witness and the allowed filter does not. The only
      exception is where '#' meets a filter whose remaining levels are a lone '#'. */
  lemma {:induction false} WitnessSeparates(allowed: Levels, requested: Levels)
    requires ValidLevels(allowed) && ValidLevels(requested)
    requires forall l :: l in requested ==> '/' !in l
    requires !LevelsCover(allowed, requested)
    ensures LevelsMatch(requested, Witness(allowed, requested))
    ensures !LevelsMatch(allowed, Witness(allowed, requested))
    ensures forall l :: l in Witness(allowed, requested) ==> PlainLevel(l)
    decreases |allowed|
  {
    if allowed == [] {
      if requested[0] != "#" { InstanceMatches(requested); }
    } else if requested != [] && requested[0] != "#" {
      TailIsValid(allowed);
      TailIsValid(requested);
      if allowed[0] == "+" || requested[0] == allowed[0] {
        WitnessSeparates(allowed[1..], requested[1..]);
      } else {
        InstanceMatches(requested[1..]);
      }
    }
  }

  /** The one refusal that is too strict: '#' inside '+/#'. */
  predicate Exception(allowed: string, requested: string) { allowed == "+/#" && requested == "#" }

  /** A topic name that shows why a refusal is right. */
  function WitnessTopic(allowed: string, requested: string): string {
    var (a, q) := (Split(allowed), Split(requested));
    if StartsWith(requested, '$') && LeadingWildcard(allowed) then Join(Instance(q))
    else if requested == "#" then
      if a[0] != "+" then Other(a[0]) else if |a| == 1 then "a/a" else LITERAL_A
    else Join(Witness(a, q))
  }

  lemma {:induction false} TopicOf(levels: Levels)
    requires levels != [] && forall l :: l in levels ==> PlainLevel(l)
    ensures Split(Join(levels)) == levels && Topic(Join(levels))
  {
    SplitJoin(levels);
    NoWildcard(levels);
  }

  lemma {:induction false} NoWildcard(levels: Levels)
    requires levels != [] && forall l :: l in levels ==> PlainLevel(l)
    ensures '#' !in Join(levels) && '+' !in Join(levels)
  {
    assert PlainLevel(levels[0]);
    if |levels| > 1 { NoWildcard(levels[1..]); }
  }

  lemma {:induction false} JoinStart(levels: Levels)
    requires levels != [] && levels[0] != ""
    ensures Join(levels) != "" && Join(levels)[0] == levels[0][0]
  {
  }

  lemma {:induction false} HashStandsAlone(filter: string)
    requires ValidFilter(filter) && Split(filter)[0] == "#"
    ensures filter == "#"
  {
    TailIsValid(Split(filter));
    assert Split(filter) == ["#"];
    JoinSplit(filter);
  }

  lemma {:induction false} SplitWords(words: Levels)
    requires words == ["#"] || words == ["+"] || words == ["+", "#"] || words == ["", "#"] || words == ["a", "a"]
             || words == ["", "+", "#"] || words == ["+", "+", "#"] || words == ["a"]
    ensures Split(Join(words)) == words
  {
    SplitJoin(words);
  }

  /** A refusal at '#': the request is the bare '#', which matches every ordinary topic. */
  lemma {:induction false} HashIsRefusedRightly(allowed: string)
    requires ValidFilter(allowed) && !FilterCovers(allowed, "#") && allowed != "+/#"
    ensures var topic := WitnessTopic(allowed, "#");
            topic != "" && Topic(topic) && TopicMatches("#", topic) && !TopicMatches(allowed, topic)
  {
    var a := Split(allowed);
    SplitWord("#");
    SplitHasNoSlash(allowed);
    JoinSplit(allowed);
    if a[0] != "+" {
      SplitWord(Other(a[0]));
    } else if |a| == 1 {
      SplitWords(["a", "a"]);
      assert Join(["a", "a"]) == "a/a";
      assert a == ["+"] && ["a", "a"][1..] == ["a"];
    } else {
      SplitWord(LITERAL_A);
      assert a[1..][0] == a[1] && [LITERAL_A][1..] == [];
      assert LevelsMatch(a, [LITERAL_A]) == LevelsMatch(a[1..], []);
      if a[1] == "#" { PlusHashIs(allowed); }
    }
  }

  lemma {:induction false} PlusHashIs(allowed: string)
    requires ValidFilter(allowed) && |Split(allowed)| > 1 && Split(allowed)[0] == "+" && Split(allowed)[1] == "#"
    ensures allowed == "+/#"
  {
    var a := Split(allowed);
    JoinSplit(allowed);
    TailIsValid(a);
    TailIsValid(a[1..]);
    assert a == ["+", "#"];
    JoinPlusHash();
  }

  lemma {:induction false} JoinPlusHash()
    ensures Join(["+", "#"]) == "+/#" && Split("+/#") == ["+", "#"]
  {
    assert ["+", "#"][1..] == ["#"];
    SplitWords(["+", "#"]);
  }

  lemma {:induction false} DollarIsRefusedRightly(allowed: string, requested: string)
    requires ValidFilter(requested) && StartsWith(requested, '$') && LeadingWildcard(allowed)
    ensures var topic := Join(Instance(Split(requested)));
            topic != "" && Topic(topic) && TopicMatches(requested, topic) && !TopicMatches(allowed, topic)
  {
    var q := Split(requested);
    SplitHasNoSlash(requested);
    InstanceMatches(q);
    assert q[0] != "" && q[0][0] == '$';
    TopicOf(Instance(q));
    JoinStart(Instance(q));
  }

  /** An ordinary refusal: its witness levels form a topic name that no '$' rule touches. */
  lemma {:induction false} WitnessIsTopic(allowed: string, requested: string)
    requires ValidFilter(allowed) && ValidFilter(requested) && requested != "#"
    requires !(StartsWith(requested, '$') && LeadingWildcard(allowed))
    requires !LevelsCover(Split(allowed), Split(requested))
    ensures var topic := WitnessTopic(allowed, requested);
            Topic(topic) && TopicMatches(requested, topic) && !TopicMatches(allowed, topic)
    ensures WitnessTopic(allowed, requested) == "" ==> requested == "" || requested == "/#"
  {
    var (a, q) := (Split(allowed), Split(requested));
    SplitHasNoSlash(requested);
    WitnessSeparates(a, q);
    var w := Witness(a, q);
    JoinSplit(requested);
    if q[0] == "#" { HashStandsAlone(requested); }
    TopicOf(w);
    if q[0] == "+" {
      JoinStart(w);
    } else {
      LiteralHead(requested, Join(w));
    }
    if Join(w) == "" { EmptyWitness(requested, w); }
  }

  lemma {:induction false} EmptyWitness(requested: string, w: Levels)
    requires ValidFilter(requested) && Split(requested)[0] != "+" && Split(requested)[0] != "#"
    requires LevelsMatch(Split(requested), w) && w == [""]
    ensures requested == "" || requested == "/#"
  {
    var q := Split(requested);
    JoinSplit(requested);
    if |q| > 1 {
      TailIsValid(q);
      assert q[1..][0] == "#";
      TailIsValid(q[1..]);
      assert q == ["", "#"] && q[1..] == ["#"];
    }
  }

  /** Every refusal but one is justified by a topic name that the requested filter matches and
      the allowed one does not. */
  lemma {:induction false} RefusalHasWitness(allowed: string, requested: string)
    requires ValidFilter(allowed) && ValidFilter(requested)
    requires !FilterCovers(allowed, requested) && !Exception(allowed, requested)
    ensures var topic := WitnessTopic(allowed, requested);
            Topic(topic) && TopicMatches(requested, topic) && !TopicMatches(allowed, topic)
    ensures WitnessTopic(allowed, requested) == "" ==> requested == "" || requested == "/#"
  {
    if requested == "#" {
      HashIsRefusedRightly(allowed);
    } else if StartsWith(requested, '$') && LeadingWildcard(allowed) {
      DollarIsRefusedRightly(allowed, requested);
    } else {
      WitnessIsTopic(allowed, requested);
    }
  }

  /** `filter_covers` decides narrowing exactly: true precisely when every topic the requested
      filter can match is matched by the allowed one, except that it refuses '#' inside '+/#'. */
  lemma {:induction false} FilterCoversIsExact(allowed: string, requested: string)
    requires ValidFilter(allowed) && ValidFilter(requested)
    ensures FilterCovers(allowed, requested) <==> Narrows(allowed, requested) && !Exception(allowed, requested)
  {
    if FilterCovers(allowed, requested) {
      CoversIsSound(allowed, requested);
      ExceptionIsRefused();
    } else if !Exception(allowed, requested) {
      RefusalHasWitness(allowed, requested);
    }
  }

  /** The exception is real: '+/#' and '#' match the same topics, and the request is refused. */
  lemma {:induction false} ExceptionIsRefused()
    ensures !FilterCovers("+/#", "#")
    ensures forall topic :: TopicMatches("+/#", topic) == TopicMatches("#", topic)
  {
    SplitWord("#");
    JoinPlusHash();
    forall topic ensures TopicMatches("+/#", topic) == TopicMatches("#", topic) {
      var t := Split(topic);
      assert ["+", "#"][1..] == ["#"];
      assert LevelsMatch(["+", "#"], t) == LevelsMatch(["#"], t[1..]);
    }
  }

  /** Without the empty topic name two more refusals are too strict: '/#' then matches only
      topics of two levels or more, like '/+/#' and '+/+/#' do. */
  predicate NamedException(allowed: string, requested: string) {
    requested == "/#" && (allowed == "/+/#" || allowed == "+/+/#")
  }

  /** A non-empty topic name under '/#' that the allowed levels do not match. */
  function NamedWitness(a: Levels): Levels
    requires a != []
  {
    if a[0] != "+" && a[0] != "" then ["", ""]
    else if |a| == 1 then ["", ""]
    else if a[1] != "+" then ["", Other(a[1])]
    else if |a| == 2 then ["", "a", "a"]
    else ["", "a"]
  }

  lemma {:induction false} SlashHashRefused(allowed: string)
    requires ValidFilter(allowed) && !FilterCovers(allowed, "/#") && !NamedException(allowed, "/#")
    ensures var topic := Join(NamedWitness(Split(allowed)));
            topic != "" && Topic(topic) && TopicMatches("/#", topic) && !TopicMatches(allowed, topic)
  {
    var a := Split(allowed);
    var w := NamedWitness(a);
    SlashHashMatches(w);
    NamedSeparates(a);
    NotNamed(allowed);
  }

  lemma {:induction false} NotNamed(allowed: string)
    requires !NamedException(allowed, "/#")
    ensures var a := Split(allowed);
            !(|a| == 3 && a[0] in {"", "+"} && a[1] == "+" && a[2] == "#")
  {
    var a := Split(allowed);
    JoinSplit(allowed);
    if |a| == 3 && a[1] == "+" && a[2] == "#" {
      assert a[1..] == ["+", "#"];
      JoinPlusHash();
    }
  }

  /** '/#' matches every topic name of at least two levels that starts with an empty one. */
  lemma {:induction false} SlashHashMatches(w: Levels)
    requires |w| > 1 && w[0] == "" && forall l :: l in w ==> PlainLevel(l)
    ensures Split("/#") == ["", "#"] && Split(Join(w)) == w
    ensures Join(w) != "" && Join(w)[0] == '/' && Topic(Join(w)) && TopicMatches("/#", Join(w))
  {
    SplitWords(["", "#"]);
    assert ["", "#"][1..] == ["#"];
    assert Join(["", "#"]) == "/#";
    TopicOf(w);
    assert LevelsMatch(["", "#"], w) == LevelsMatch(["#"], w[1..]);
  }

  lemma {:induction false} NamedSeparates(a: Levels)
    requires a != [] && ValidLevels(a) && !LevelsCover(a, ["", "#"])
    ensures (|a| == 3 && a[0] in {"", "+"} && a[1] == "+" && a[2] == "#") || !LevelsMatch(a, NamedWitness(a))
  {
    if a[0] in {"", "+"} && |a| > 1 {
      var w := NamedWitness(a);
      assert LevelsCover(a, ["", "#"]) == LevelsCover(a[1..], ["#"]) by { assert ["", "#"][1..] == ["#"]; }
      assert a[1..][0] == a[1] != "#";
      assert LevelsMatch(a, w) == LevelsMatch(a[1..], w[1..]);
      if a[1] == "+" {
        assert w[1..][1..] == w[2..] && a[1..][1..] == a[2..];
        assert LevelsMatch(a[1..], w[1..]) == LevelsMatch(a[2..], w[2..]);
        if |a| > 2 {
          assert a[2..][0] == a[2];
          if a[2] == "#" { assert '#' in a[2]; }
        }
      }
    } else if a[0] in {"", "+"} {
      assert a[1..] == [] && ["", ""][1..] == [""];
    }
  }

  lemma {:induction false} NamedExceptionsNarrow()
    ensures NarrowsNamed("/+/#", "/#") && NarrowsNamed("+/+/#", "/#")
    ensures !FilterCovers("/+/#", "/#") && !FilterCovers("+/+/#", "/#")
  {
    SplitWords(["", "#"]);
    SplitWords(["", "+", "#"]);
    SplitWords(["+", "+", "#"]);
    assert ["", "#"][1..] == ["#"] && Join(["", "#"]) == "/#";
    assert ["", "+", "#"][1..] == ["+", "#"] && ["+", "+", "#"][1..] == ["+", "#"] && ["+", "#"][1..] == ["#"];
    JoinPlusHash();
    assert Join(["", "+", "#"]) == "/+/#" && Join(["+", "+", "#"]) == "+/+/#";
    forall topic | topic != "" && Topic(topic) && TopicMatches("/#", topic)
      ensures TopicMatches("/+/#", topic) && TopicMatches("+/+/#", topic) {
      var t := Split(topic);
      JoinSplit(topic);
      assert t[0] == "" && |t| > 1;
      assert topic[0] == '/';
      assert LevelsMatch(["+", "#"], t[1..]) == LevelsMatch(["#"], t[1..][1..]);
    }
  }

  /** Exactness over topic names as MQTT defines them: three requests in all are refused although
      they only narrow. */
  lemma {:induction false} FilterCoversIsExactOnNames(allowed: string, requested: string)
    requires requested != "" && ValidFilter(allowed) && ValidFilter(requested)
    ensures FilterCovers(allowed, requested) <==>
            NarrowsNamed(allowed, requested) && !Exception(allowed, requested) && !NamedException(allowed, requested)
  {
    if FilterCovers(allowed, requested) {
      CoversIsSound(allowed, requested);
      ExceptionIsRefused();
      NamedExceptionsNarrow();
    } else if !Exception(allowed, requested) && !NamedException(allowed, requested) {
      RefusalHasWitness(allowed, requested);
      if requested == "/#" { SlashHashRefused(allowed); }
    }
  }

  lemma {:induction false} LevelsCoverRefl(f: Levels)
    requires ValidLevels(f)
    ensures LevelsCover(f, f)
  {
    if f != [] {
      TailIsValid(f);
      LevelsCoverRefl(f[1..]);
    }
  }

  lemma {:induction false} CoversReflexive(f: string)
    requires ValidFilter(f)
    ensures FilterCovers(f, f)
  {
    LevelsCoverRefl(Split(f));
  }

  lemma {:induction false} OnlyHashCoversHash(f: string)
    requires ValidFilter(f) && FilterCovers(f, "#")
    ensures f == "#"
  {
    SplitWord("#");
    HashStandsAlone(f);
  }

  /** Narrowing twice is narrowing once. */
  lemma {:induction false} CoversTransitive(a: string, b: string, c: string)
    requires ValidFilter(a) && ValidFilter(b) && ValidFilter(c)
    requires FilterCovers(a, b) && FilterCovers(b, c)
    ensures FilterCovers(a, c)
  {
    FilterCoversIsExact(a, b);
    FilterCoversIsExact(b, c);
    FilterCoversIsExact(a, c);
    if c == "#" { OnlyHashCoversHash(b); }
  }

  // ------------------------------------------------------------------ which filters are valid

  /** A wildcard begins a level; '#' also ends the filter, and '+' its level. */
  predicate PlacedAt(s: string, i: nat)
    requires i < |s|
  {
    (s[i] == '#' || s[i] == '+' ==> i == 0 || s[i - 1] == '/')
    && (s[i] == '#' ==> i == |s| - 1) && (s[i] == '+' ==> i == |s| - 1 || s[i + 1] == '/')
  }

  predicate WellPlaced(s: string) { forall i: nat :: i < |s| ==> PlacedAt(s, i) }

  lemma {:induction false} PlacedWord(word: string)
    requires '/' !in word
    ensures WellPlaced(word) <==> ('#' in word ==> word == "#") && ('+' in word ==> word == "+")
  {
    if WellPlaced(word) {
      forall i: nat | i < |word| && (word[i] == '#' || word[i] == '+') ensures |word| == 1 && word == [word[i]] {
        assert PlacedAt(word, i);
      }
    }
  }

  lemma {:induction false} PlacedAfterSlash(word: string, rest: string)
    requires '/' !in word
    ensures WellPlaced(word + "/" + rest) <==> '#' !in word && ('+' in word ==> word == "+") && WellPlaced(rest)
  {
    var (s, n) := (word + "/" + rest, |word| + 1);
    forall i: nat | i < |rest| ensures PlacedAt(rest, i) <==> PlacedAt(s, n + i) {
      assert s[n + i] == rest[i] && (i > 0 ==> s[n + i - 1] == rest[i - 1]) && (i < |rest| - 1 ==> s[n + i + 1] == rest[i + 1]);
    }
    forall i: nat | i < |word| ensures PlacedAt(s, i) <==> word[i] != '#' && (word[i] == '+' ==> word == "+") {
      assert s[i] == word[i] && (i > 0 ==> s[i - 1] == word[i - 1]) && (i < |word| - 1 ==> s[i + 1] == word[i + 1]);
    }
    if '+' in word && WellPlaced(s) {
      var i :| 0 <= i < |word| && word[i] == '+';
      assert PlacedAt(s, i);
    }
    if WellPlaced(s) {
      forall i: nat | i < |word| ensures word[i] != '#' { assert PlacedAt(s, i); }
      forall i: nat | i < |rest| ensures PlacedAt(rest, i) { assert PlacedAt(s, n + i); }
    } else {
      var i: nat :| i < |s| && !PlacedAt(s, i);
      if i >= n { assert !PlacedAt(rest, i - n); } else { assert i < |word|; }
    }
  }

  lemma {:induction false} ValidJoined(levels: Levels)
    requires levels != [] && forall l :: l in levels ==> '/' !in l
    ensures ValidLevels(levels) <==> WellPlaced(Join(levels))
  {
    assert levels[0] in levels;
    if |levels| == 1 {
      PlacedWord(levels[0]);
    } else {
      ValidJoined(levels[1..]);
      PlacedAfterSlash(levels[0], Join(levels[1..]));
      if ValidLevels(levels) { TailIsValid(levels); }
      if WellPlaced(Join(levels)) { ValidFirst(levels); }
    }
  }

  lemma {:induction false} ValidFirst(levels: Levels)
    requires |levels| > 1 && ValidLevels(levels[1..]) && '#' !in levels[0] && ('+' in levels[0] ==> levels[0] == "+")
    ensures ValidLevels(levels)
  {
    forall i | 0 < i < |levels| ensures levels[i] == levels[1..][i - 1] {}
  }

  /** A filter is valid exactly when its wildcards are where section 4.7.1 lets them be. */
  lemma {:induction false} ValidFilterIff(filter: string)
    ensures ValidFilter(filter) <==> WellPlaced(filter)
  {
    JoinSplit(filter);
    SplitHasNoSlash(filter);
    ValidJoined(Split(filter));
  }

  /** `valid_topic_filter`, level by level. */
  method ValidTopicFilter(value: string) returns (valid: bool)
    ensures valid == WellPlaced(value)
  {
    ValidFilterIff(value);
    var levels := Split(value);
    for i := 0 to |levels|
      invariant forall j :: 0 <= j < i ==>
                  ('#' in levels[j] ==> levels[j] == "#" && j == |levels| - 1) && ('+' in levels[j] ==> levels[j] == "+")
    {
      if '#' in levels[i] && (levels[i] != "#" || i != |levels| - 1) {
        return false;
      }
      if '+' in levels[i] && levels[i] != "+" {
        return false;
      }
    }
    return true;
  }

  /** `check_ming_subscribe`: accepted exactly when one configured filter covers the request, and
      then every topic received under it is one the configuration already allowed. */
  predicate CheckSubscribe(subscribe: seq<string>, requested: string) {
    exists i :: 0 <= i < |subscribe| && FilterCovers(subscribe[i], requested)
  }

  lemma {:induction false} SubscribeNeverWidens(subscribe: seq<string>, requested: string, topic: string)
    requires ValidFilter(requested) && CheckSubscribe(subscribe, requested)
    requires Topic(topic) && TopicMatches(requested, topic)
    ensures exists i :: 0 <= i < |subscribe| && TopicMatches(subscribe[i], topic)
  {
    var i :| 0 <= i < |subscribe| && FilterCovers(subscribe[i], requested);
    CoversIsSound(subscribe[i], requested);
  }

  /** A request is accepted exactly when it narrows a configured filter, `#` under `+/#` excepted. */
  lemma {:induction false} SubscribeAcceptsIff(subscribe: seq<string>, requested: string)
    requires ValidFilter(requested) && forall i :: 0 <= i < |subscribe| ==> ValidFilter(subscribe[i])
    ensures CheckSubscribe(subscribe, requested) <==>
            exists i :: 0 <= i < |subscribe| && Narrows(subscribe[i], requested) && !(subscribe[i] == "+/#" && requested == "#")
  {
    forall i | 0 <= i < |subscribe|
      ensures FilterCovers(subscribe[i], requested) <==>
              Narrows(subscribe[i], requested) && !(subscribe[i] == "+/#" && requested == "#")
    {
      FilterCoversIsExact(subscribe[i], requested);
    }
  }
}
