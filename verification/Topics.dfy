/** Topic names and topic filters as lists of levels (section 4.7 of MQTT 3.1.1).
    The broker's tokeniser and its two wildcard checks are loops over characters;
    each is proved against a definition on levels. */
module Topics {

  type Levels = seq<string>

  const MAX_TOPIC := 65535

  // ----- levels -------------------------------------------------------------

  /** The levels of a string: what lies between its '/' characters. */
  function Split(s: string): (ls: Levels)
    ensures |ls| >= 1
  {
    if s == "" then [""]
    else if s[0] == '/' then [""] + Split(s[1..])
    else
      var rest := Split(s[1..]);
      [[s[0]] + rest[0]] + rest[1..]
  }

  function Join(ls: Levels): string
    requires |ls| >= 1
  {
    if |ls| == 1 then ls[0] else ls[0] + "/" + Join(ls[1..])
  }

  ghost predicate SlashFree(l: string) {
    forall i :: 0 <= i < |l| ==> l[i] != '/'
  }

  lemma {:induction false} JoinOfSplit(s: string)
    ensures Join(Split(s)) == s
    ensures forall i :: 0 <= i < |Split(s)| ==> SlashFree(Split(s)[i])
  {
    if s != "" {
      JoinOfSplit(s[1..]);
      var rest := Split(s[1..]);
      if s[0] == '/' {
        assert ([""] + rest)[1..] == rest;
        assert Join([""] + rest) == "" + "/" + Join(rest);
        assert s == "/" + s[1..];
      } else {
        var ls := [[s[0]] + rest[0]] + rest[1..];
        assert ls[1..] == rest[1..];
        assert Join(ls) == [s[0]] + Join(rest);
        assert SlashFree(rest[0]);
        assert s == [s[0]] + s[1..];
      }
    }
  }

  /** Cutting at the first '/' gives the first level and the levels of the rest. */
  lemma {:induction false} SplitAtSlash(s: string, k: nat)
    requires k < |s| && s[k] == '/' && SlashFree(s[..k])
    ensures Split(s) == [s[..k]] + Split(s[k+1..])
  {
    if k == 0 {
      assert s[..0] == "";
    } else {
      assert s[0] != '/' by { assert s[..k][0] != '/'; }
      assert s[1..][..k-1] == s[..k][1..];
      assert s[1..][k..] == s[k+1..];
      SplitAtSlash(s[1..], k - 1);
      assert [s[0]] + s[1..][..k-1] == s[..k];
    }
  }

  lemma {:induction false} SplitNoSlash(s: string)
    requires SlashFree(s)
    ensures Split(s) == [s]
  {
    if s != "" {
      assert SlashFree(s[1..]);
      SplitNoSlash(s[1..]);
      assert [s[0]] + s[1..] == s;
    }
  }

  lemma {:induction false} SplitOfJoin(ls: Levels)
    requires |ls| >= 1 && forall i :: 0 <= i < |ls| ==> SlashFree(ls[i])
    ensures Split(Join(ls)) == ls
  {
    if |ls| == 1 {
      SplitNoSlash(ls[0]);
    } else {
      SplitOfJoin(ls[1..]);
      var s := Join(ls);
      var k := |ls[0]|;
      assert s[..k] == ls[0] && s[k] == '/' && s[k+1..] == Join(ls[1..]);
      SplitAtSlash(s, k);
    }
  }

  // ----- tokens -------------------------------------------------------------

  predicate InDollarTree(s: string) {
    s != "" && s[0] == '$'
  }

  /** The token list the tree walks. A leading empty token keeps the ordinary
      topics apart from those starting with '$'. */
  function Tokens(s: string): (ts: Levels)
    ensures |ts| >= 1
  {
    (if InDollarTree(s) then [] else [""]) + Split(s)
  }

  lemma TokensInjective(a: string, b: string)
    requires Tokens(a) == Tokens(b)
    ensures a == b
  {
    JoinOfSplit(a);
    JoinOfSplit(b);
    assert !InDollarTree(a) ==> Tokens(a)[0] == "";
    assert !InDollarTree(b) ==> Tokens(b)[0] == "";
    assert InDollarTree(a) == InDollarTree(b);
    if InDollarTree(a) {
      assert Tokens(a) == Split(a) && Tokens(b) == Split(b);
    } else {
      assert Tokens(a)[1..] == Split(a) && Tokens(b)[1..] == Split(b);
    }
  }

  /** The levels still to be cut once the pass has reached `start`. */
  ghost function Pending(s: string, start: nat): Levels {
    if start <= |s| then Split(s[start..]) else []
  }

  ghost predicate Cut(s: string, tokens: Levels, start: nat) {
    tokens + Pending(s, start) == Tokens(s)
  }

  lemma PendingStep(s: string, start: nat, i: nat)
    requires start <= i <= |s| && (forall k :: start <= k < i ==> s[k] != '/') && (i < |s| ==> s[i] == '/')
    ensures Pending(s, start) == [s[start..i]] + Pending(s, i + 1)
  {
    var rest := s[start..];
    assert rest[..i - start] == s[start..i];
    if i == |s| {
      assert rest == s[start..i];
      SplitNoSlash(rest);
    } else {
      SplitAtSlash(rest, i - start);
      assert rest[i - start + 1..] == s[i + 1..];
    }
  }

  lemma CutToken(s: string, tokens: Levels, start: nat, i: nat)
    requires start <= i <= |s| && (forall k :: start <= k < i ==> s[k] != '/') && (i < |s| ==> s[i] == '/')
    requires Cut(s, tokens, start)
    ensures Cut(s, tokens + [s[start..i]], i + 1)
  {
    hide Pending, Tokens;
    PendingStep(s, start, i);
    var token, rest := s[start..i], Pending(s, i + 1);
    assert tokens + ([token] + rest) == tokens + [token] + rest;
  }

  lemma CutAll(s: string, tokens: Levels, start: nat)
    requires Cut(s, tokens, start) && start == |s| + 1
    ensures tokens == Tokens(s)
  {
    assert tokens + [] == tokens;
  }

  /** `_sub_topic_tokenise`: one pass that cuts a token at each '/' and at the end. */
  method Tokenise(subtopic: string) returns (tokens: seq<string>)
    ensures tokens == Tokens(subtopic)
  {
    tokens := [];
    if subtopic == "" || subtopic[0] != '$' {
      tokens := tokens + [""];
    }
    var start := 0;
    assert Cut(subtopic, tokens, start) by { assert subtopic[0..] == subtopic; }
    if subtopic != "" && subtopic[0] == '/' {
      CutToken(subtopic, tokens, 0, 0);
      tokens := tokens + [""];
      start := 1;
    }
    hide Cut;
    var i := start;
    while i < |subtopic| + 1
      invariant 0 <= start <= i <= |subtopic| + 1
      invariant Cut(subtopic, tokens, start)
      invariant i <= |subtopic| ==> forall k :: start <= k < i ==> subtopic[k] != '/'
      invariant i == |subtopic| + 1 ==> start == i
    {
      if i == |subtopic| || subtopic[i] == '/' {
        CutToken(subtopic, tokens, start, i);
        tokens := tokens + [subtopic[start..i]];
        start := i + 1;
      }
      i := i + 1;
    }
    CutAll(subtopic, tokens, start);
  }

  // ----- wildcards ----------------------------------------------------------

  predicate IsWild(c: char) {
    c == '+' || c == '#'
  }

  ghost predicate Plain(l: string) {
    forall i :: 0 <= i < |l| ==> !IsWild(l[i])
  }

  /** A topic name: no wildcard in any level. */
  ghost predicate PlainLevels(ls: Levels) {
    forall i :: 0 <= i < |ls| ==> Plain(ls[i])
  }

  /** A topic filter: a wildcard fills its level, and '#' stands only last. */
  ghost predicate FilterLevels(ls: Levels) {
    forall i :: 0 <= i < |ls| ==> Plain(ls[i]) || ls[i] == "+" || (ls[i] == "#" && i == |ls| - 1)
  }

  lemma PlainCons(c: char, l: string)
    ensures Plain([c] + l) <==> !IsWild(c) && Plain(l)
  {
    var s := [c] + l;
    assert s[0] == c && forall i :: 0 <= i < |l| ==> s[i + 1] == l[i];
    assert forall i :: 1 <= i < |s| ==> s[i] == l[i - 1];
  }

  lemma PlainLevelsCons(l: string, ls: Levels)
    ensures PlainLevels([l] + ls) <==> Plain(l) && PlainLevels(ls)
  {
    var s := [l] + ls;
    assert s[0] == l && forall i :: 0 <= i < |ls| ==> s[i + 1] == ls[i];
    assert forall i :: 1 <= i < |s| ==> s[i] == ls[i - 1];
  }

  lemma PlainIsNotWild(l: string)
    requires Plain(l)
    ensures l != "+" && l != "#"
  {
    if l == "+" || l == "#" {
      assert IsWild(l[0]);
    }
  }

  lemma {:induction false} PlainSplit(s: string)
    ensures Plain(s) <==> PlainLevels(Split(s))
  {
    if s != "" {
      PlainSplit(s[1..]);
      var rest := Split(s[1..]);
      PlainCons(s[0], s[1..]);
      assert s == [s[0]] + s[1..];
      if s[0] == '/' {
        PlainLevelsCons("", rest);
      } else {
        var ls := [[s[0]] + rest[0]] + rest[1..];
        PlainCons(s[0], rest[0]);
        PlainLevelsCons(ls[0], rest[1..]);
        PlainLevelsCons(rest[0], rest[1..]);
        assert rest == [rest[0]] + rest[1..];
      }
    }
  }

  /** `_mosquitto_topic_wildcard_len_check`, on the topic of a PUBLISH. */
  method WildcardLenCheck(str: string) returns (ok: bool)
    ensures ok <==> PlainLevels(Split(str)) && |str| <= MAX_TOPIC
  {
    PlainSplit(str);
    var len := 0;
    while len < |str|
      invariant 0 <= len <= |str|
      invariant Plain(str[..len])
    {
      if str[len] == '+' || str[len] == '#' {
        assert IsWild(str[len]);
        return false;
      }
      len := len + 1;
    }
    assert str[..len] == str;
    return len <= MAX_TOPIC;
  }

  /** The filter rule for the rest of a string whose first level may already have
      begun: with `mid`, that level can no longer be a wildcard. */
  ghost predicate FilterRest(s: string, mid: bool) {
    var ls := Split(s);
    FilterLevels(ls) && (mid ==> Plain(ls[0]))
  }

  /** The test the scan makes at one character. */
  ghost predicate CharOk(s: string, mid: bool)
    requires s != ""
  {
    && (s[0] == '+' ==> !mid && (|s| == 1 || s[1] == '/'))
    && (s[0] == '#' ==> !mid && |s| == 1)
  }

  lemma FilterRestStep(s: string, mid: bool)
    requires s != ""
    ensures FilterRest(s, mid) <==> CharOk(s, mid) && FilterRest(s[1..], s[0] != '/')
  {
    var rest := Split(s[1..]);
    var ls := Split(s);
    if s[0] == '/' {
      assert forall i :: 0 <= i < |rest| ==> ls[i + 1] == rest[i];
      assert forall i :: 1 <= i < |ls| ==> ls[i] == rest[i - 1];
    } else {
      assert forall i :: 1 <= i < |ls| ==> ls[i] == rest[i];
      PlainCons(s[0], rest[0]);
      assert rest[0] == "" <==> |s| == 1 || s[1] == '/';
      assert |s| == 1 ==> |rest| == 1;
      if IsWild(s[0]) {
        assert !Plain(ls[0]);
        assert ls[0] == "+" <==> s[0] == '+' && rest[0] == "";
        assert ls[0] == "#" <==> s[0] == '#' && rest[0] == "";
        if s[0] == '#' && |ls| == 1 && rest[0] == "" {
          assert |s| == 1 by {
            JoinOfSplit(s[1..]);
          }
        }
        if FilterRest(s, mid) {
          assert Plain(rest[0]);
          assert forall i :: 0 <= i < |rest| ==>
            Plain(rest[i]) || rest[i] == "+" || (rest[i] == "#" && i == |rest| - 1);
        }
      } else {
        assert ls[0][0] == s[0];
        if Plain(rest[0]) {
          PlainIsNotWild(rest[0]);
        }
      }
    }
  }

  /** `_mosquitto_topic_wildcard_pos_check`, on every filter subscribed to. */
  method WildcardPosCheck(str: string) returns (ok: bool)
    ensures ok <==> FilterLevels(Split(str)) && |str| <= MAX_TOPIC
  {
    var len := 0;
    var c := '\0';
    while len < |str|
      invariant 0 <= len <= |str|
      invariant len == 0 ==> c == '\0'
      invariant len > 0 ==> c == str[len - 1]
      invariant FilterLevels(Split(str)) <==> FilterRest(str[len..], len > 0 && c != '/')
    {
      ghost var rest := str[len..];
      FilterRestStep(rest, len > 0 && c != '/');
      assert rest[1..] == str[len + 1..];
      if str[len] == '+' {
        if (len > 0 && c != '/') || (len + 1 < |str| && str[len + 1] != '/') {
          return false;
        }
      } else if str[len] == '#' {
        if (len > 0 && c != '/') || len + 1 < |str| {
          return false;
        }
      }
      c := str[len];
      len := len + 1;
    }
    assert str[len..] == "";
    assert Split("") == [""];
    return len <= MAX_TOPIC;
  }

  // ----- the matching rule --------------------------------------------------

  /** The level rule: '#' takes all that is left, even nothing; '+' takes one
      level; any other level takes itself. */
  predicate Matches(f: Levels, t: Levels) {
    if f == [] then t == []
    else if f == ["#"] then true
    else t != [] && (f[0] == "+" || f[0] == t[0]) && Matches(f[1..], t[1..])
  }

  ghost predicate LevelwiseTo(f: Levels, t: Levels, n: nat)
    requires n <= |f| && n <= |t|
  {
    forall i :: 0 <= i < n ==> f[i] == "+" || f[i] == t[i]
  }

  /** The same rule without recursion, as section 4.7 of MQTT 3.1.1 words it. */
  ghost predicate MatchesByPosition(f: Levels, t: Levels) {
    if f != [] && f[|f| - 1] == "#"
    then |t| >= |f| - 1 && LevelwiseTo(f, t, |f| - 1)
    else |t| == |f| && LevelwiseTo(f, t, |f|)
  }

  lemma {:induction false} MatchesIsByPosition(f: Levels, t: Levels)
    requires forall i :: 0 <= i < |f| - 1 ==> f[i] != "#"
    ensures Matches(f, t) <==> MatchesByPosition(f, t)
  {
    if f == [] || f == ["#"] {
    } else if t == [] {
      if |f| == 1 {
        assert f == [f[0]];
      }
    } else {
      var f', t' := f[1..], t[1..];
      assert forall i :: 0 <= i < |f'| - 1 ==> f'[i] == f[i + 1];
      MatchesIsByPosition(f', t');
      assert |f'| > 0 ==> f'[|f'| - 1] == f[|f| - 1];
      if |f| == 1 {
        assert f == [f[0]];
      }
      var n := if f[|f| - 1] == "#" then |f| - 1 else |f|;
      if n <= |t| {
        assert n > 0 || f == ["#"];
        assert LevelwiseTo(f, t, n) <==> (f[0] == "+" || f[0] == t[0]) && LevelwiseTo(f', t', n - 1) by {
          assert forall i :: 0 <= i < n - 1 ==> f'[i] == f[i + 1] && t'[i] == t[i + 1];
          assert forall i :: 1 <= i < n ==> f[i] == f'[i - 1] && t[i] == t'[i - 1];
        }
      }
    }
  }
}
