/** Topic names, wildcards and the one-pass scan that decides whether a filter matches a name. */
module TopicFilters {
  predicate NulFree(s: string) {
    forall i :: 0 <= i < |s| ==> s[i] != '\0'
  }

  /** The string as a C library sees it: up to its first zero byte. */
  function CString(s: string): string {
    if s == "" || s[0] == '\0' then "" else [s[0]] + CString(s[1..])
  }

  lemma {:induction false} CStringIsPrefix(s: string)
    ensures CString(s) <= s && NulFree(CString(s))
    ensures |CString(s)| < |s| ==> s[|CString(s)|] == '\0'
  {
    if s != "" && s[0] != '\0' {
      CStringIsPrefix(s[1..]);
    }
  }

  /** The topic names a wildcard: `+` or `#` occurs in it. */
  predicate IsWildcard(name: string) {
    name != "" && ('+' in CString(name) || '#' in CString(name))
  }

  /** A character of a string; past the end there are zero bytes. */
  function At(s: string, i: nat): char {
    if i < |s| then s[i] else '\0'
  }

  // ----- the scan -----

  /** Drops the rest of a level: up to the next separator or the end. */
  function SkipLevel(n: string): (r: string)
    ensures |r| <= |n| && (r == "" || r[0] == '/')
  {
    if n == "" || n[0] == '/' then n else SkipLevel(n[1..])
  }

  /** The scan over what is left of the filter and of the name. */
  function Scan(f: string, n: string): bool
    decreases |f|
  {
    if At(f, 0) == '\0' || n == "" then n == "" && At(f, 0) == '\0'
    else if n[0] == '/' && f[0] != '/' then false
    else if f[0] != '+' && f[0] != '#' && f[0] != n[0] then false
    else if f[0] == '+' then Scan(f[1..], SkipLevel(n[1..]))
    else if f[0] == '#' then Scan(f[1..], "")
    else Scan(f[1..], n[1..])
  }

  method IsTopicMatched(topicName: string, name: string) returns (matched: bool)
    ensures matched == Scan(topicName, name)
  {
    var i := 0;
    var curn := 0;
    while At(topicName, i) != '\0' && curn < |name|
      invariant 0 <= i <= |topicName| && 0 <= curn <= |name|
      invariant Scan(topicName, name) == Scan(topicName[i..], name[curn..])
      decreases |topicName| - i
    {
      ghost var f, n := topicName[i..], name[curn..];
      assert f[1..] == topicName[i + 1..] && n[1..] == name[curn + 1..];
      if name[curn] == '/' && topicName[i] != '/' {
        break;
      }
      if topicName[i] != '+' && topicName[i] != '#' && topicName[i] != name[curn] {
        break;
      }
      if topicName[i] == '+' {
        var nextpos := curn + 1;
        while nextpos < |name| && name[nextpos] != '/'
          invariant nextpos == curn + 1 <= |name|
          invariant SkipLevel(n[1..]) == SkipLevel(name[nextpos..])
        {
          assert name[nextpos..][1..] == name[nextpos + 1..];
          curn := curn + 1;
          nextpos := curn + 1;
        }
      } else if topicName[i] == '#' {
        curn := |name| - 1;
        assert name[|name|..] == "";
      }
      i := i + 1;
      curn := curn + 1;
    }
    assert At(topicName[i..], 0) == At(topicName, i);
    matched := curn == |name| && At(topicName, i) == '\0';
  }

  // ----- levels -----

  /** A topic cut at its separators: always at least one level, possibly empty. */
  function Levels(s: string): (r: seq<string>)
    ensures r != []
  {
    if s == "" then [""]
    else if s[0] == '/' then [""] + Levels(s[1..])
    else
      var rest := Levels(s[1..]);
      [[s[0]] + rest[0]] + rest[1..]
  }

  predicate Literal(level: string) {
    '+' !in level && '#' !in level
  }

  /** Wildcards fill whole levels, and `#` is the last one. */
  predicate WellFormed(levels: seq<string>) {
    levels != [] &&
    if levels[0] == "#" then |levels| == 1
    else (levels[0] == "+" || Literal(levels[0])) && (|levels| > 1 ==> WellFormed(levels[1..]))
  }

  /** The match by levels: literal levels are equal, `+` takes one non-empty level, `#` takes the
      remaining levels, at least one, of which the first is not empty. */
  predicate LevelMatch(f: seq<string>, n: seq<string>) {
    if f == [] then n == []
    else if n == [] then false
    else if f[0] == "#" then n[0] != ""
    else if f[0] == "+" then n[0] != "" && LevelMatch(f[1..], n[1..])
    else f[0] == n[0] && LevelMatch(f[1..], n[1..])
  }

  lemma {:induction false} SkipIsNextLevel(n: string)
    ensures
      var rest := SkipLevel(n);
      if rest == "" then Levels(n)[1..] == [] else Levels(n)[1..] == Levels(rest[1..])
  {
    if n == "" {
    } else if n[0] == '/' {
      assert Levels(n)[1..] == Levels(n[1..]);
    } else {
      SkipIsNextLevel(n[1..]);
      assert Levels(n)[1..] == Levels(n[1..])[1..];
    }
  }

  /** The first level is empty in front of a separator, and otherwise starts with the first character. */
  lemma {:induction false} FirstCharacter(s: string)
    requires s != ""
    ensures if s[0] == '/' then Levels(s)[0] == "" else Levels(s)[0] != "" && Levels(s)[0][0] == s[0]
  {
  }

  /** A literal character in front belongs to the first level. */
  lemma {:induction false} LiteralHead(f: string)
    requires f != "" && f[0] != '/' && WellFormed(Levels(f)) && f[0] != '+' && f[0] != '#'
    ensures Levels(f)[0] == [f[0]] + Levels(f[1..])[0] && Levels(f)[1..] == Levels(f[1..])[1..]
    ensures Literal(Levels(f)[0]) && Literal(Levels(f[1..])[0])
    ensures WellFormed(Levels(f[1..]))
  {
    var l, k := Levels(f), Levels(f[1..]);
    assert l[0] == [f[0]] + k[0] && l[1..] == k[1..];
    assert l[0][0] == f[0];
    assert k[0] == l[0][1..];
  }

  /** A wildcard in front is a level of its own. */
  lemma {:induction false} WildcardHead(f: string)
    requires f != "" && WellFormed(Levels(f)) && (f[0] == '+' || f[0] == '#')
    ensures Levels(f)[0] == [f[0]] && (f[1..] == "" || (f[1] == '/' && f[0] == '+'))
    ensures f[1..] != "" ==> Levels(f)[1..] == Levels(f[2..]) && WellFormed(Levels(f[2..]))
    ensures f[1..] == "" ==> Levels(f)[1..] == []
  {
    var l, k := Levels(f), Levels(f[1..]);
    assert l[0] == [f[0]] + k[0] && l[1..] == k[1..];
    assert l[0][0] == f[0];
    assert k[0] == l[0][1..];
    assert k[0] == "";
    if f[1..] != "" {
      FirstCharacter(f[1..]);
      assert f[1..][1..] == f[2..];
      assert Levels(f[1..])[1..] == Levels(f[2..]);
    }
  }

  lemma {:induction false} NulFreeSuffix(s: string, k: nat)
    requires NulFree(s) && k <= |s|
    ensures NulFree(s[k..])
  {
  }

  /** Main result: on well-formed filters the scan decides the match by levels. */
  lemma {:induction false} ScanIsLevelMatch(f: string, n: string)
    requires NulFree(f) && WellFormed(Levels(f))
    ensures Scan(f, n) <==> LevelMatch(Levels(f), Levels(n))
    decreases |f|
  {
    if f == "" {
      EmptyFilter(n);
    } else if n == "" {
      EmptyName(f);
    } else if f[0] == '/' {
      NulFreeSuffix(f, 1);
      assert Levels(f)[1..] == Levels(f[1..]);
      if n[0] == '/' {
        assert Levels(n)[1..] == Levels(n[1..]);
        ScanIsLevelMatch(f[1..], n[1..]);
      }
    } else if f[0] == '+' {
      PlusFilter(f, n);
    } else if f[0] == '#' {
      WildcardHead(f);
    } else {
      NulFreeSuffix(f, 1);
      LiteralHead(f);
      FirstCharacter(n);
      if n[0] == f[0] {
        ScanIsLevelMatch(f[1..], n[1..]);
        LiteralStep(f, n);
      } else {
        assert Levels(f)[0][0] == f[0];
      }
    }
  }

  lemma {:induction false} EmptyFilter(n: string)
    ensures LevelMatch(Levels(""), Levels(n)) <==> n == ""
  {
    if n != "" && n[0] == '/' {
      assert Levels(n)[1..] == Levels(n[1..]);
    }
  }

  lemma {:induction false} EmptyName(f: string)
    requires f != "" && WellFormed(Levels(f))
    ensures !LevelMatch(Levels(f), Levels(""))
  {
    if f[0] == '/' {
      assert Levels(f)[1..] == Levels(f[1..]);
    } else if f[0] == '+' || f[0] == '#' {
      WildcardHead(f);
    } else {
      LiteralHead(f);
    }
  }

  lemma {:induction false} LiteralStep(f: string, n: string)
    requires f != "" && n != "" && f[0] == n[0] && f[0] != '/' && f[0] != '+' && f[0] != '#'
    requires WellFormed(Levels(f))
    ensures LevelMatch(Levels(f), Levels(n)) <==> LevelMatch(Levels(f[1..]), Levels(n[1..]))
  {
    LiteralHead(f);
    var fl, nl, fk, nk := Levels(f), Levels(n), Levels(f[1..]), Levels(n[1..]);
    assert nl[0] == [n[0]] + nk[0] && nl[1..] == nk[1..];
    assert fk[0] == fl[0][1..] && nk[0] == nl[0][1..];
    assert fl[0][0] == f[0] && fl[0] != "#" && fl[0] != "+";
    assert fk[0] != "#" && fk[0] != "+" by {
      assert '#' !in fk[0] && '+' !in fk[0];
    }
  }

  lemma {:induction false} PlusFilter(f: string, n: string)
    requires NulFree(f) && WellFormed(Levels(f)) && f != "" && f[0] == '+' && n != ""
    ensures Scan(f, n) <==> LevelMatch(Levels(f), Levels(n))
    decreases |f|, 0
  {
    WildcardHead(f);
    if n[0] != '/' {
      var rest := SkipLevel(n[1..]);
      SkipIsNextLevel(n);
      assert SkipLevel(n) == rest;
      if f[1..] != "" && rest != "" {
        NulFreeSuffix(f, 2);
        assert f[1..][1..] == f[2..];
        ScanIsLevelMatch(f[2..], rest[1..]);
      }
    }
  }

  // ----- what a wildcard is -----

  /** A filter without `+` and `#` matches itself and nothing else. */
  lemma {:induction false} PlainMatchesItself(f: string, n: string)
    requires NulFree(f) && '+' !in f && '#' !in f
    ensures Scan(f, n) <==> n == f
    decreases |f|
  {
    if f != "" && n != "" {
      NulFreeSuffix(f, 1);
      PlainMatchesItself(f[1..], n[1..]);
      assert f == [f[0]] + f[1..] && n == [n[0]] + n[1..];
    }
  }

  /** A name for a filter: `a` for each wildcard. */
  function Filled(f: string): (r: string)
    ensures |r| == |f|
    ensures forall i :: 0 <= i < |f| ==> r[i] == if f[i] == '+' || f[i] == '#' then 'a' else f[i]
  {
    if f == "" then "" else [if f[0] == '+' || f[0] == '#' then 'a' else f[0]] + Filled(f[1..])
  }

  lemma {:induction false} FilledMatches(f: string)
    requires NulFree(f) && WellFormed(Levels(f))
    ensures Scan(f, Filled(f))
    decreases |f|
  {
    if f != "" {
      var n := Filled(f);
      assert n[1..] == Filled(f[1..]);
      NulFreeSuffix(f, 1);
      if f[0] == '/' {
        assert Levels(f)[1..] == Levels(f[1..]);
        FilledMatches(f[1..]);
      } else if f[0] == '+' || f[0] == '#' {
        WildcardHead(f);
        if f[1..] != "" {
          FilledSkips(f, n);
        } else {
          assert n[1..] == "";
          assert Scan(f[1..], n[1..]);
        }
      } else {
        LiteralHead(f);
        FilledMatches(f[1..]);
      }
    }
  }

  /** Behind a `+` the next level is matched. */
  lemma {:induction false} FilledSkips(f: string, n: string)
    requires |f| > 1 && f[0] == '+' && f[1] == '/' && NulFree(f) && WellFormed(Levels(f[2..])) && n == Filled(f)
    ensures Scan(f, n)
    decreases |f|, 0
  {
    NulFreeSuffix(f, 2);
    FilledMatches(f[2..]);
    assert n[1..] == Filled(f[1..]) && n[2..] == Filled(f[2..]);
    assert f[1..][1..] == f[2..] && n[1..][1..] == n[2..];
    assert SkipLevel(n[1..]) == n[1..];
    assert Scan(f[1..], n[1..]);
  }

  lemma {:induction false} CStringOfNulFree(s: string)
    requires NulFree(s)
    ensures CString(s) == s
  {
    CStringIsPrefix(s);
  }

  predicate MatchesOther(f: string, n: string) {
    n != f && Scan(f, n)
  }

  /** A well-formed filter is a wildcard exactly if it matches something else than itself. */
  lemma {:induction false} WildcardIffMatchesOther(f: string)
    requires NulFree(f) && WellFormed(Levels(f))
    ensures IsWildcard(f) <==> exists n :: MatchesOther(f, n)
  {
    CStringOfNulFree(f);
    assert IsWildcard(f) <==> '+' in f || '#' in f;
    if '+' in f || '#' in f {
      FilledMatches(f);
      FilledDiffers(f);
      assert MatchesOther(f, Filled(f));
    } else {
      forall n ensures !MatchesOther(f, n) {
        PlainMatchesItself(f, n);
      }
    }
  }

  lemma {:induction false} FilledDiffers(f: string)
    requires '+' in f || '#' in f
    ensures Filled(f) != f
  {
    var i :| 0 <= i < |f| && (f[i] == '+' || f[i] == '#');
    assert Filled(f)[i] != f[i];
  }

  // ----- against the MQTT matching rule -----

  /** The rule of sections 4.7.1.2 and 4.7.1.3 of MQTT 3.1.1: `#` takes any remaining levels, even none,
      and `+` one level, even an empty one. */
  predicate MqttMatch(f: seq<string>, n: seq<string>) {
    if f == [] then n == []
    else if f[0] == "#" then true
    else n != [] && (f[0] == "+" || f[0] == n[0]) && MqttMatch(f[1..], n[1..])
  }

  /** Every wildcard of the filter stands at a level of the name that is there and not empty. */
  predicate WildcardsMeetText(f: seq<string>, n: seq<string>) {
    forall i :: 0 <= i < |f| && (f[i] == "+" || f[i] == "#") ==> i < |n| && n[i] != ""
  }

  /** The client's match is the rule's, and more: exactly the matches in which no wildcard takes an empty level
      or none at all. */
  lemma {:induction false} StricterThanMqtt(f: seq<string>, n: seq<string>)
    requires forall i :: 0 <= i < |f| - 1 ==> f[i] != "#"
    ensures LevelMatch(f, n) <==> MqttMatch(f, n) && WildcardsMeetText(f, n)
    decreases |f|
  {
    if f != [] && f[0] == "#" {
      assert WildcardsMeetText(f, n) <==> n != [] && n[0] != "";
    } else if f != [] && n != [] {
      StricterThanMqtt(f[1..], n[1..]);
      MeetsTextFromFront(f, n);
    }
  }

  lemma {:induction false} MeetsTextFromFront(f: seq<string>, n: seq<string>)
    requires f != [] && n != []
    ensures WildcardsMeetText(f, n) <==>
            ((f[0] == "+" || f[0] == "#") ==> n[0] != "") && WildcardsMeetText(f[1..], n[1..])
  {
    if WildcardsMeetText(f, n) {
      forall i | 0 <= i < |f[1..]| && (f[1..][i] == "+" || f[1..][i] == "#")
        ensures i < |n[1..]| && n[1..][i] != ""
      {
        assert f[i + 1] == f[1..][i];
      }
    }
    if ((f[0] == "+" || f[0] == "#") ==> n[0] != "") && WildcardsMeetText(f[1..], n[1..]) {
      forall i | 0 <= i < |f| && (f[i] == "+" || f[i] == "#")
        ensures i < |n| && n[i] != ""
      {
        if i > 0 {
          assert f[1..][i - 1] == f[i];
        }
      }
    }
  }

  /** A parent level, and an empty level, are what it refuses. */
  lemma {:induction false} RefusesParentAndEmptyLevel()
    ensures !LevelMatch(["a", "#"], ["a"]) && MqttMatch(["a", "#"], ["a"])
    ensures !LevelMatch(["+"], [""]) && MqttMatch(["+"], [""])
  {
    assert ["a", "#"][1..] == ["#"] && ["a"][1..] == [];
    assert ["+"][1..] == [] && [""][1..] == [];
  }
}
