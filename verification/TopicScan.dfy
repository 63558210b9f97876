/** The character-level matcher `mosquitto_topic_matches_sub`, used for access
    control and bridge remapping: a scan with one pointer in the filter and one in
    the topic. It is sound for the level rule and stricter in two situations,
    which `Misses` names exactly. */
module TopicScan {
  import opened Topics

  /** The topic from its next '/' on. */
  function SkipLevel(t: string): (r: string)
    ensures |r| <= |t|
  {
    if t == "" || t[0] == '/' then t else SkipLevel(t[1..])
  }

  /** The loop, on what is left of filter and topic. */
  function Scan(f: string, t: string): bool
    decreases |f| + |t|
  {
    if f == "" || t == "" then false
    else if f[0] == t[0] then
      if |t| == 1 && |f| == 3 && f[1] == '/' && f[2] == '#' then true
      else if |f| == 1 && |t| == 1 then true
      else if |t| == 1 && f[1..] == "+" then true
      else Scan(f[1..], t[1..])
    else if f[0] == '+' then
      (|f| == 1 && SkipLevel(t) == "") || Scan(f[1..], SkipLevel(t))
    else f == "#"
  }

  /** Where the scan says no although the level rule says yes: '#' is left with
      one empty level, or with no level at all behind a '+'. */
  ghost predicate Misses(f: Levels, t: Levels) {
    && |f| >= 1 && f[|f| - 1] == "#"
    && ((|t| == |f| && t[|t| - 1] == "") || (|t| == |f| - 1 && |f| >= 2 && f[|f| - 2] == "+"))
  }

  ghost predicate WellFormed(sub: string, topic: string) {
    FilterLevels(Split(sub)) && PlainLevels(Split(topic))
  }

  ghost predicate Decides(sub: string, topic: string) {
    Matches(Tokens(sub), Tokens(topic)) && !Misses(Split(sub), Split(topic))
  }

  /** `mosquitto_topic_matches_sub`. `result` is the caller's variable, which two
      empty strings leave as it was. */
  method TopicMatchesSub(sub: string, topic: string, was: bool) returns (result: bool)
    ensures sub == "" && topic == "" ==> result == was
    ensures topic != "" && WellFormed(sub, topic) ==> (result <==> Decides(sub, topic))
    ensures topic == "" && sub != "" ==> !result
  {
    hide Decides, WellFormed;
    result := was;
    ScanDecides(sub, topic);
    if sub != "" && topic != "" {
      if (sub[0] == '$' && topic[0] != '$') || (topic[0] == '$' && sub[0] != '$') {
        return false;
      }
    }
    var slen, tlen := |sub|, |topic|;
    var spos, tpos := 0, 0;
    assert sub[0..] == sub && topic[0..] == topic;
    while spos < slen && tpos < tlen
      invariant 0 <= spos <= slen && 0 <= tpos <= tlen
      invariant Scan(sub, topic) == Scan(sub[spos..], topic[tpos..])
      invariant spos == slen && tpos == tlen ==> spos == 0 && tpos == 0
      decreases slen - spos + tlen - tpos
    {
      ghost var f, t := sub[spos..], topic[tpos..];
      assert f[1..] == sub[spos + 1..] && t[1..] == topic[tpos + 1..];
      if sub[spos] == topic[tpos] {
        if tpos == tlen - 1 {
          if spos == slen - 3 && sub[spos + 1] == '/' && sub[spos + 2] == '#' {
            return true;
          }
        }
        spos := spos + 1;
        tpos := tpos + 1;
        if spos == slen && tpos == tlen {
          return true;
        } else if tpos == tlen && spos == slen - 1 && sub[spos] == '+' {
          assert f[1..] == "+";
          return true;
        }
      } else if sub[spos] == '+' {
        spos := spos + 1;
        while tpos < tlen && topic[tpos] != '/'
          invariant tpos <= tlen
          invariant SkipLevel(t) == SkipLevel(topic[tpos..])
        {
          assert topic[tpos..][1..] == topic[tpos + 1..];
          tpos := tpos + 1;
        }
        if tpos == tlen && spos == slen {
          return true;
        }
      } else if sub[spos] == '#' {
        return spos + 1 == slen;
      } else {
        return false;
      }
    }
    if tpos < tlen || spos < slen {
      result := false;
    }
  }

  /** The rule the scan decides, on what is left of filter and topic. */
  ghost predicate Answer(f: string, t: string) {
    Matches(Split(f), Split(t)) && !Misses(Split(f), Split(t))
  }

  lemma SplitIsEmptyLevel(s: string)
    ensures Split(s) == [""] <==> s == ""
  {
    JoinOfSplit(s);
  }

  lemma SplitIsHash(s: string)
    ensures Split(s) == ["#"] <==> s == "#"
  {
    JoinOfSplit(s);
    SplitNoSlash("#");
  }

  /** The topic is used up: only three filter rests are still matched. */
  lemma AnswerAtEnd(f: string)
    ensures Answer(f, "") <==> f == "" || f == "+" || f == "/#"
  {
    var ls := Split(f);
    SplitIsEmptyLevel(f);
    JoinOfSplit(f);
    SplitNoSlash("+");
    assert Split("/#") == ["", "#"] by {
      SplitIsHash("#");
      assert "/#"[1..] == "#";
    }
    assert Split("") == [""];
    if Matches(ls, [""]) {
      if ls != ["#"] {
        assert Matches(ls[1..], []) && [""][1..] == [];
        assert ls == [ls[0]] + ls[1..];
        assert ls[1..] == [] || ls[1..] == ["#"];
      }
    }
  }

  lemma SkipLevelSplit(t: string)
    ensures var r := SkipLevel(t);
      if r == "" then |Split(t)| == 1
      else r[0] == '/' && Split(t)[1..] == Split(r)[1..]
  {
    if t != "" && t[0] != '/' {
      SkipLevelSplit(t[1..]);
    }
  }

  lemma SameSlash(f: string, t: string)
    requires f != "" && t != "" && f[0] == t[0] == '/'
    ensures Answer(f, t) <==> Answer(f[1..], t[1..])
  {
    var f', t' := Split(f[1..]), Split(t[1..]);
    assert Split(f)[1..] == f' && Split(t)[1..] == t';
  }

  lemma SameChar(f: string, t: string)
    requires f != "" && t != "" && f[0] == t[0] != '/' && !IsWild(f[0])
    requires Plain(Split(f[1..])[0])
    ensures Answer(f, t) <==> Answer(f[1..], t[1..])
  {
    var f', t' := Split(f[1..]), Split(t[1..]);
    PlainIsNotWild(f'[0]);
    PlainCons(f[0], f'[0]);
    PlainIsNotWild(Split(f)[0]);
    assert Split(f)[1..] == f'[1..] && Split(t)[1..] == t'[1..];
    assert Split(f)[0] == Split(t)[0] <==> f'[0] == t'[0] by {
      assert Split(f)[0][1..] == f'[0] && Split(t)[0][1..] == t'[0];
    }
  }

  lemma DifferentChar(f: string, t: string)
    requires f != "" && t != "" && f[0] != t[0] && !IsWild(f[0])
    ensures !Matches(Split(f), Split(t))
  {
    if f[0] != '/' {
      assert Split(f)[0][0] == f[0];
      assert t[0] == '/' || Split(t)[0][0] == t[0];
    } else {
      assert Split(t)[0][0] == t[0];
    }
  }

  /** The levels of a filter whose first level is '+'. */
  lemma PlusSplit(f: string)
    requires |f| >= 2 && f[0] == '+' && f[1] == '/'
    ensures Split(f[1..]) == [""] + Split(f[2..]) && Split(f) == ["+"] + Split(f[2..])
  {
    assert f[1..][1..] == f[2..];
    var g := Split(f[2..]);
    assert ([""] + g)[1..] == g && ['+'] + "" == "+";
  }

  lemma PlusLevel(f: string, t: string)
    requires |f| >= 2 && f[0] == '+' && f[1] == '/'
    ensures SkipLevel(t) == "" ==> !Answer(f, t)
    ensures SkipLevel(t) != "" ==> (Answer(f, t) <==> Answer(f[1..], SkipLevel(t)))
  {
    hide Split, SkipLevel;
    SkipLevelSplit(t);
    PlusSplit(f);
    var g, r := Split(f[2..]), SkipLevel(t);
    assert Split(f)[1..] == g && Split(f[1..])[1..] == g;
    if r == "" {
      assert Split(t)[1..] == [];
      assert Matches(g, []) ==> g == ["#"];
    } else {
      SlashFirst(r);
      assert |Split(t)| == |Split(r)| && |Split(t)| >= 2;
      assert Split(t)[|Split(t)| - 1] == Split(t)[1..][|Split(t)| - 2];
      assert Split(r)[|Split(r)| - 1] == Split(r)[1..][|Split(r)| - 2];
    }
  }

  lemma SlashFirst(r: string)
    requires r != "" && r[0] == '/'
    ensures Split(r)[0] == "" && |Split(r)| >= 2
  {
  }

  lemma {:induction false} ScanAnswers(f: string, t: string, mid: bool)
    requires t != "" && Plain(t) && FilterRest(f, mid)
    ensures Scan(f, t) <==> Answer(f, t)
    decreases |f|
  {
    SplitIsEmptyLevel(t);
    if f == "" {
      assert Split(t) == [Split(t)[0]] + Split(t)[1..];
    } else {
      FilterRestStep(f, mid);
      assert !IsWild(t[0]);
      var f', t' := f[1..], t[1..];
      assert t == [t[0]] + t';
      PlainCons(t[0], t');
      if f[0] == t[0] {
        if f[0] == '/' {
          SameSlash(f, t);
        } else {
          SameChar(f, t);
        }
        if t' == "" {
          AnswerAtEnd(f');
          assert f' == "" <==> |f| == 1;
          assert f' == "/#" <==> |f| == 3 && f[1] == '/' && f[2] == '#';
        } else {
          ScanAnswers(f', t', f[0] != '/');
        }
      } else if f[0] == '+' {
        SkipLevelSplit(t);
        SkipLevelPlain(t);
        if |f| == 1 {
          assert f == "+";
          SplitNoSlash("+");
          assert Matches(["+"], Split(t)) <==> Split(t)[1..] == [];
        } else {
          PlusLevel(f, t);
          if SkipLevel(t) != "" {
            ScanAnswers(f', SkipLevel(t), true);
          }
        }
      } else if f[0] == '#' {
        assert f == "#";
        SplitIsHash(f);
      } else {
        DifferentChar(f, t);
      }
    }
  }

  lemma SkipLevelPlain(t: string)
    requires Plain(t)
    ensures Plain(SkipLevel(t))
  {
    if t != "" && t[0] != '/' {
      SkipLevelPlain(t[1..]);
    }
  }

  lemma ScanDecides(sub: string, topic: string)
    ensures topic != "" && WellFormed(sub, topic) ==>
      (Decides(sub, topic) <==> InDollarTree(sub) == InDollarTree(topic) && Scan(sub, topic))
  {
    if topic != "" && WellFormed(sub, topic) {
      PlainSplit(topic);
      ScanAnswers(sub, topic, false);
      if InDollarTree(sub) == InDollarTree(topic) {
        if !InDollarTree(sub) {
          assert Tokens(sub)[1..] == Split(sub) && Tokens(topic)[1..] == Split(topic);
        } else {
          assert Tokens(sub) == Split(sub) && Tokens(topic) == Split(topic);
        }
      } else if InDollarTree(sub) {
        assert Split(sub)[0][0] == '$';
      } else {
        assert Split(topic)[0][0] == '$';
        assert Tokens(sub)[0] == "";
      }
    }
  }

  /** The two families of `Misses` are real: "a/#" on "a/", and "+/#" on "a". */
  lemma ScanIsStricter()
    ensures !Scan("a/#", "a/") && Matches(Tokens("a/#"), Tokens("a/"))
    ensures !Scan("+/#", "a") && Matches(Tokens("+/#"), Tokens("a"))
  {
    assert Split("a/#") == ["a", "#"] && Split("a/") == ["a", ""] && Split("+/#") == ["+", "#"]
      && Split("a") == ["a"] by {
      SplitNoSlash("a");
      SplitNoSlash("#");
      SplitNoSlash("");
      SplitAtSlash("a/#", 1);
      SplitAtSlash("a/", 1);
      SplitAtSlash("+/#", 1);
      assert "a/#"[2..] == "#" && "a/"[2..] == "" && "+/#"[2..] == "#";
      assert "a/#"[..1] == "a" && "a/"[..1] == "a" && "+/#"[..1] == "+";
    }
  }
}
