/** The client's list of known topics, and the handlers their messages go to. */
module TopicSpec {
  import opened TopicFilters
  import opened Lists

  datatype Handler = NoHandler | Handler(code: nat)

  datatype TopicKind = Normal | Predefined | Short

  // The registration flags: published to, subscribed to.
  const REG_NONE: bv2 := 0
  const REG_PUB: bv2 := 1
  const REG_SUB: bv2 := 2
  const REG_BOTH: bv2 := 3

  datatype Topic = Topic(kind: TopicKind, id: nat, shortName: string, name: string, returnCode: int,
                         handler: Handler, regFlag: bv2)
  {
    /** Assigns every field of another topic except a handler this one already has. */
    function Assigned(other: Topic): (r: Topic)
      ensures r.(handler := other.handler) == other
      ensures handler != NoHandler ==> r.handler == handler
      ensures handler == NoHandler ==> r.handler == other.handler
    {
      other.(handler := if handler == NoHandler then other.handler else handler)
    }

    function SetReg(flag: bv2): Topic {
      this.(regFlag := if flag != REG_NONE then regFlag | flag else REG_NONE)
    }

    function UnsetReg(flag: bv2): Topic {
      this.(regFlag := if flag != REG_NONE then regFlag & !flag else REG_BOTH)
    }

    predicate IsReg(flag: bv2) {
      if flag != REG_NONE then regFlag & flag != 0 else regFlag == REG_NONE
    }

    predicate IsWildcardTopic() {
      IsWildcard(name)
    }

    predicate Matches(other: Topic) {
      Scan(name, other.name)
    }
  }

  // What the list hands out for an index it does not have.
  const NO_TOPIC := Topic(Normal, 0, "", "", 0, NoHandler, REG_NONE)

  // ----- names -----

  /** Names are compared as C strings. */
  function IsNamed(name: string): Topic -> bool {
    (t: Topic) => CString(t.name) == CString(name)
  }

  function Key(t: Topic): string {
    CString(t.name)
  }

  function Find(s: seq<Topic>, name: string): int {
    FirstIndex(s, IsNamed(name))
  }

  /** No entry has an empty name, and no two have the same one. */
  predicate Named(s: seq<Topic>) {
    && (forall i :: 0 <= i < |s| ==> s[i].name != "")
    && (forall i, j :: 0 <= i < j < |s| ==> Key(s[i]) != Key(s[j]))
  }

  function Keys(s: seq<Topic>): (r: seq<string>)
    ensures |r| == |s| && forall i :: 0 <= i < |s| ==> r[i] == Key(s[i])
  {
    seq(|s|, i requires 0 <= i < |s| => Key(s[i]))
  }

  // ----- the operations on the sequence of entries -----

  function Inserted(s: seq<Topic>, topic: Topic): seq<Topic> {
    if topic.name == "" then s
    else
      var k := Find(s, topic.name);
      if k == -1 then s + [topic] else s[k := s[k].Assigned(topic)]
  }

  /** The entries that follow a wildcard: other names, no wildcards themselves, matched by it. */
  predicate Follows(w: Topic, t: Topic) {
    Key(t) != Key(w) && !t.IsWildcardTopic() && w.Matches(t)
  }

  function Redirected(w: Topic, t: Topic, mh: Handler): Topic {
    if Follows(w, t) then t.(handler := mh) else t
  }

  function AllRedirected(s: seq<Topic>, w: Topic, mh: Handler): (r: seq<Topic>)
    ensures |r| == |s| && forall i :: 0 <= i < |s| ==> r[i] == Redirected(w, s[i], mh)
  {
    seq(|s|, i requires 0 <= i < |s| => Redirected(w, s[i], mh))
  }

  /** The entries once the loop over them has come to position `i`. */
  function RedirectedUpTo(s: seq<Topic>, w: Topic, mh: Handler, i: nat): (r: seq<Topic>)
    requires i <= |s|
    ensures |r| == |s|
    decreases i
  {
    if i == 0 then s else RedirectedUpTo(s, w, mh, i - 1)[i - 1 := Redirected(w, s[i - 1], mh)]
  }

  lemma {:induction false} RedirectedUpToAt(s: seq<Topic>, w: Topic, mh: Handler, i: nat, k: nat)
    requires i <= |s| && k < |s|
    ensures RedirectedUpTo(s, w, mh, i)[k] == if k < i then Redirected(w, s[k], mh) else s[k]
    decreases i
  {
    if i > 0 {
      RedirectedUpToAt(s, w, mh, i - 1, k);
    }
  }

  lemma {:induction false} RedirectedUpToEnd(s: seq<Topic>, w: Topic, mh: Handler)
    ensures RedirectedUpTo(s, w, mh, |s|) == AllRedirected(s, w, mh)
  {
    forall k | 0 <= k < |s|
      ensures RedirectedUpTo(s, w, mh, |s|)[k] == AllRedirected(s, w, mh)[k]
    {
      RedirectedUpToAt(s, w, mh, |s|, k);
    }
  }

  /** The first `i` entries of `s` have been redirected, and `ret` tells whether one of them follows. */
  predicate RedirectedSoFar(s: seq<Topic>, w: Topic, mh: Handler, i: nat, now: seq<Topic>, ret: bool) {
    i <= |s| && now == RedirectedUpTo(s, w, mh, i) && (ret <==> SomeFollow(s[..i], w))
  }

  lemma {:induction false} OneMoreRedirected(s: seq<Topic>, w: Topic, mh: Handler, i: nat, now: seq<Topic>, ret: bool,
                                             next: seq<Topic>, follows: bool)
    requires RedirectedSoFar(s, w, mh, i, now, ret) && i < |s|
    requires next == now[i := Redirected(w, now[i], mh)] && (follows <==> Follows(w, now[i]))
    ensures RedirectedSoFar(s, w, mh, i + 1, next, ret || follows)
  {
    RedirectedUpToAt(s, w, mh, i, i);
    SomeFollowStep(s, w, i);
  }

  lemma {:induction false} AllAreRedirected(s: seq<Topic>, w: Topic, mh: Handler, now: seq<Topic>, ret: bool)
    requires RedirectedSoFar(s, w, mh, |s|, now, ret)
    ensures now == AllRedirected(s, w, mh) && (ret <==> SomeFollow(s, w))
  {
    RedirectedUpToEnd(s, w, mh);
    assert s[..|s|] == s;
  }

  predicate SomeFollow(s: seq<Topic>, w: Topic) {
    exists i :: 0 <= i < |s| && Follows(w, s[i])
  }

  lemma {:induction false} SomeFollowStep(s: seq<Topic>, w: Topic, i: nat)
    requires i < |s|
    ensures SomeFollow(s[..i + 1], w) <==> SomeFollow(s[..i], w) || Follows(w, s[i])
  {
    assert s[..i + 1] == s[..i] + [s[i]];
    if SomeFollow(s[..i], w) {
      var j :| 0 <= j < i && Follows(w, s[..i][j]);
      assert Follows(w, s[..i + 1][j]);
    }
    if Follows(w, s[i]) {
      assert Follows(w, s[..i + 1][i]);
    }
    if SomeFollow(s[..i + 1], w) && !Follows(w, s[i]) {
      var j :| 0 <= j < i + 1 && Follows(w, s[..i + 1][j]);
      assert Follows(w, s[..i][j]);
    }
  }

  function Attached(s: seq<Topic>, index: int, mh: Handler): seq<Topic> {
    if 0 <= index < |s| then
      var w := s[index].(handler := mh);
      if w.IsWildcardTopic() then AllRedirected(s[index := w], w, mh) else s[index := w]
    else s
  }

  function WildcardUpdated(s: seq<Topic>, topic: Topic): seq<Topic> {
    var k := Find(s, topic.name);
    if topic.IsWildcardTopic() && 0 <= k then AllRedirected(s, s[k], topic.handler) else s
  }

  function Flagged(s: seq<Topic>, index: int, flag: bv2): seq<Topic> {
    if 0 <= index < |s| then s[index := s[index].SetReg(flag)] else s
  }

  function Unflagged(s: seq<Topic>, index: int, flag: bv2): seq<Topic> {
    if 0 <= index < |s| then s[index := s[index].UnsetReg(flag)] else s
  }

  /** The entries a wildcard does not match, in order. */
  function Unmatched(s: seq<Topic>, w: Topic): (r: seq<Topic>)
    ensures |r| <= |s|
  {
    if s == [] then []
    else if w.Matches(s[0]) then Unmatched(s[1..], w)
    else [s[0]] + Unmatched(s[1..], w)
  }

  /** What a downward sweep that spares the wildcard at `index` leaves of the entries from `i` on. */
  function Swept(s: seq<Topic>, index: nat, i: nat): seq<Topic>
    requires index < |s| && i <= |s|
  {
    if i > index then Unmatched(s[i..], s[index])
    else Unmatched(s[i..index], s[index]) + [s[index]] + Unmatched(s[index + 1..], s[index])
  }

  function SweptFrom(s: seq<Topic>, index: nat, i: nat): seq<Topic>
    requires index < |s| && i <= |s|
  {
    s[..i] + Swept(s, index, i)
  }

  /** Removing a wildcard first sweeps out what it matches, and then removes what has come to be at `index`. */
  function Removed(s: seq<Topic>, index: int): seq<Topic> {
    if 0 <= index < |s| && s[index].IsWildcardTopic() then Without(SweptFrom(s, index, 0), index)
    else Without(s, index)
  }

  /** Setting a flag of an entry shows in that entry's registrations alone: the flag is there and no other is gone;
      clearing it takes just that flag away. */
  lemma {:induction false} FlagsAreIndependent(t: Topic, flag: bv2, other: bv2)
    requires flag == REG_PUB || flag == REG_SUB
    requires other == REG_PUB || other == REG_SUB
    ensures t.SetReg(flag).IsReg(other) <==> other == flag || t.IsReg(other)
    ensures t.UnsetReg(flag).IsReg(other) <==> other != flag && t.IsReg(other)
    ensures t.SetReg(REG_NONE).IsReg(REG_NONE) && t.UnsetReg(REG_NONE).IsReg(other)
  {
  }

  // ----- the names over a run -----

  datatype RegistryOp =
    | Insert(topic: Topic)
    | Attach(index: int, handler: Handler)
    | UpdateWildcard(topic: Topic)
    | SetFlag(index: int, flag: bv2)
    | UnsetFlag(index: int, flag: bv2)
    | Remove(index: int)
    | Clear

  function Apply(s: seq<Topic>, op: RegistryOp): seq<Topic> {
    match op
    case Insert(topic) => Inserted(s, topic)
    case Attach(index, handler) => Attached(s, index, handler)
    case UpdateWildcard(topic) => WildcardUpdated(s, topic)
    case SetFlag(index, flag) => Flagged(s, index, flag)
    case UnsetFlag(index, flag) => Unflagged(s, index, flag)
    case Remove(index) => Removed(s, index)
    case Clear => []
  }

  function Run(s: seq<Topic>, ops: seq<RegistryOp>): seq<Topic>
    decreases |ops|
  {
    if ops == [] then s else Run(Apply(s, ops[0]), ops[1..])
  }

  lemma {:induction false} SameNamesStayNamed(s: seq<Topic>, t: seq<Topic>)
    requires Named(s) && |t| == |s|
    requires forall i :: 0 <= i < |s| ==> t[i].name != "" && Key(t[i]) == Key(s[i])
    ensures Named(t)
  {
    forall i, j | 0 <= i < j < |t|
      ensures Key(t[i]) != Key(t[j])
    {
      assert Key(s[i]) != Key(s[j]);
    }
  }

  lemma {:induction false} WithoutStaysNamed(s: seq<Topic>, index: int)
    requires Named(s)
    ensures Named(Without(s, index))
  {
    var t := Without(s, index);
    forall i, j | 0 <= i < j < |t|
      ensures Key(t[i]) != Key(t[j])
    {
      assert Key(s[if 0 <= index <= i then i + 1 else i]) != Key(s[if 0 <= index <= j then j + 1 else j]);
    }
  }

  lemma {:induction false} InsertStaysNamed(s: seq<Topic>, topic: Topic)
    requires Named(s)
    ensures Named(Inserted(s, topic))
  {
    var k := Find(s, topic.name);
    if topic.name == "" {
    } else if k == -1 {
      assert forall i :: 0 <= i < |s| ==> !IsNamed(topic.name)(s[i]);
    } else {
      assert IsNamed(topic.name)(s[k]);
      SameNamesStayNamed(s, Inserted(s, topic));
    }
  }

  lemma {:induction false} SweptStep(s: seq<Topic>, index: nat, i: nat)
    requires index < |s| && i < |s|
    ensures Swept(s, index, i) ==
            (if i != index && s[index].Matches(s[i]) then [] else [s[i]]) + Swept(s, index, i + 1)
  {
    if i > index {
      assert s[i..][1..] == s[i + 1..];
    } else if i == index {
      assert s[i..index] == [];
    } else {
      assert s[i..index][1..] == s[i + 1..index];
    }
  }

  /** One step of the sweep: the entry below is spared, kept or removed. */
  lemma {:induction false} SweepStep(s: seq<Topic>, index: nat, i: nat)
    requires index < |s| && i < |s|
    ensures i < |SweptFrom(s, index, i + 1)| && SweptFrom(s, index, i + 1)[i] == s[i]
    ensures SweptFrom(s, index, i) ==
            if i != index && s[index].Matches(s[i]) then Without(SweptFrom(s, index, i + 1), i)
            else SweptFrom(s, index, i + 1)
  {
    var below, above, all := s[..i], Swept(s, index, i + 1), SweptFrom(s, index, i + 1);
    assert s[..i + 1] == below + [s[i]];
    assert all == below + [s[i]] + above;
    TakeOut(below, s[i], above);
    assert Without(all, i) == below + above;
    SweptStep(s, index, i);
    if i != index && s[index].Matches(s[i]) {
      assert [] + above == above;
      assert SweptFrom(s, index, i) == below + above;
    } else {
      assert SweptFrom(s, index, i) == below + ([s[i]] + above);
      assert below + ([s[i]] + above) == below + [s[i]] + above;
    }
  }

  /** The sweep as the loop goes through it, from the end down to `i`. */
  function SweepDown(s: seq<Topic>, index: nat, i: nat): seq<Topic>
    requires index < |s| && i <= |s|
    decreases |s| - i
  {
    if i == |s| then s
    else
      var above := SweepDown(s, index, i + 1);
      if i != index && s[index].Matches(s[i]) then Without(above, i) else above
  }

  lemma {:induction false} SweepDownLeaves(s: seq<Topic>, index: nat, i: nat)
    requires index < |s| && i <= |s|
    ensures SweepDown(s, index, i) == SweptFrom(s, index, i)
    decreases |s| - i
  {
    if i == |s| {
      assert s[..i] + Swept(s, index, i) == s;
    } else {
      SweepDownLeaves(s, index, i + 1);
      SweepStep(s, index, i);
    }
  }

  lemma {:induction false} SweepDownKeepsBelow(s: seq<Topic>, index: nat, i: nat)
    requires index < |s| && 0 < i <= |s|
    ensures |SweepDown(s, index, i)| >= i && SweepDown(s, index, i)[i - 1] == s[i - 1]
  {
    SweepDownLeaves(s, index, i);
    SweepStep(s, index, i - 1);
  }

  lemma {:induction false} TakeOut(below: seq<Topic>, t: Topic, above: seq<Topic>)
    ensures Without(below + [t] + above, |below|) == below + above
  {
  }

  lemma {:induction false} SweepStaysNamed(s: seq<Topic>, index: nat, i: nat)
    requires Named(s) && index < |s| && i <= |s|
    ensures Named(SweptFrom(s, index, i))
    decreases |s| - i
  {
    if i == |s| {
      assert SweptFrom(s, index, i) == s;
    } else {
      SweepStaysNamed(s, index, i + 1);
      SweepStep(s, index, i);
      WithoutStaysNamed(SweptFrom(s, index, i + 1), i);
    }
  }

  lemma {:induction false} RemoveStaysNamed(s: seq<Topic>, index: int)
    requires Named(s)
    ensures Named(Removed(s, index))
  {
    if 0 <= index < |s| && s[index].IsWildcardTopic() {
      SweepStaysNamed(s, index, 0);
      WithoutStaysNamed(SweptFrom(s, index, 0), index);
    } else {
      WithoutStaysNamed(s, index);
    }
  }

  lemma {:induction false} ApplyStaysNamed(s: seq<Topic>, op: RegistryOp)
    requires Named(s)
    ensures Named(Apply(s, op))
  {
    match op
    case Insert(topic) => InsertStaysNamed(s, topic);
    case Attach(index, handler) => SameNamesStayNamed(s, Attached(s, index, handler));
    case UpdateWildcard(topic) => SameNamesStayNamed(s, WildcardUpdated(s, topic));
    case SetFlag(index, flag) => SameNamesStayNamed(s, Flagged(s, index, flag));
    case UnsetFlag(index, flag) => SameNamesStayNamed(s, Unflagged(s, index, flag));
    case Remove(index) => RemoveStaysNamed(s, index);
    case Clear =>
  }

  /** Over every run of registry operations names stay non-empty and pairwise different. */
  lemma {:induction false} RunStaysNamed(s: seq<Topic>, ops: seq<RegistryOp>)
    requires Named(s)
    ensures Named(Run(s, ops))
    decreases |ops|
  {
    if ops != [] {
      ApplyStaysNamed(s, ops[0]);
      RunStaysNamed(Apply(s, ops[0]), ops[1..]);
    }
  }

  // ----- what the operations mean -----

  /** A lookup by name returns the one position that has it. */
  lemma {:induction false} FindIsUnique(s: seq<Topic>, name: string, k: nat)
    requires Named(s) && k < |s|
    ensures Find(s, name) == k <==> Key(s[k]) == CString(name)
  {
    var f := Find(s, name);
    if f >= 0 {
      assert IsNamed(name)(s[f]);
    } else {
      assert !IsNamed(name)(s[k]);
    }
  }

  predicate Registered(s: seq<Topic>, name: string, flag: bv2) {
    exists i :: 0 <= i < |s| && Key(s[i]) == CString(name) && s[i].IsReg(flag)
  }

  /** A name is found at the entry that has it, and not found exactly if none has. */
  lemma {:induction false} FoundOrNot(s: seq<Topic>, name: string)
    requires Named(s)
    ensures
      var f := Find(s, name);
      if f == -1 then forall i :: 0 <= i < |s| ==> Key(s[i]) != CString(name)
      else 0 <= f < |s| && Key(s[f]) == CString(name) && forall i :: 0 <= i < |s| && i != f ==> Key(s[i]) != CString(name)
  {
    forall i | 0 <= i < |s|
      ensures Find(s, name) == i <==> Key(s[i]) == CString(name)
    {
      FindIsUnique(s, name, i);
    }
  }

  lemma {:induction false} SameNameSameFind(s: seq<Topic>, name: string, other: string)
    requires CString(name) == CString(other)
    ensures Find(s, name) == Find(s, other)
  {
    FirstIsUnique(s, IsNamed(other), Find(s, name));
  }

  datatype Lookup = Absent | Present(topic: Topic)

  function LookUp(s: seq<Topic>, name: string): Lookup {
    var k := Find(s, name);
    if k == -1 then Absent else Present(s[k])
  }

  /** Inserting is a map update by name that keeps the order, and a handler that is there survives it. */
  lemma {:induction false} InsertIsMapUpdate(s: seq<Topic>, topic: Topic, name: string)
    requires Named(s) && topic.name != ""
    ensures CString(name) != Key(topic) ==> LookUp(Inserted(s, topic), name) == LookUp(s, name)
    ensures CString(name) == Key(topic) ==>
              var was, now := LookUp(s, name), LookUp(Inserted(s, topic), name);
              && now.Present? && now.topic.(handler := topic.handler) == topic
              && now.topic.handler ==
                 if was.Present? && was.topic.handler != NoHandler then was.topic.handler else topic.handler
    ensures Keys(Inserted(s, topic)) == if LookUp(s, topic.name) == Absent then Keys(s) + [Key(topic)] else Keys(s)
  {
    var t, k, f := Inserted(s, topic), Find(s, topic.name), Find(s, name);
    InsertStaysNamed(s, topic);
    if k != -1 {
      assert IsNamed(topic.name)(s[k]);
    }
    if CString(name) == Key(topic) {
      FindIsUnique(t, name, if k == -1 then |s| else k);
      SameNameSameFind(s, name, topic.name);
    } else if f != -1 {
      assert IsNamed(name)(s[f]);
      FindIsUnique(t, name, f);
    } else {
      FirstIsUnique(t, IsNamed(name), -1);
    }
  }

  /** Attaching changes nothing but handlers: that of the entry itself and, if it is a wildcard, those of
      exactly the entries it matches that are no wildcards. */
  lemma {:induction false} AttachChangesMatched(s: seq<Topic>, index: nat, mh: Handler, i: nat)
    requires Named(s) && index < |s| && i < |s|
    ensures |Attached(s, index, mh)| == |s|
    ensures
      var changed := i == index ||
                     (s[index].IsWildcardTopic() && !s[i].IsWildcardTopic() && s[index].Matches(s[i]));
      Attached(s, index, mh)[i] == s[i].(handler := if changed then mh else s[i].handler)
  {
    assert i != index ==> Key(s[i]) != Key(s[index]);
  }

  /** Updating with a registered wildcard gives its handler to exactly the entries it matches that are no
      wildcards, and changes nothing else. */
  lemma {:induction false} UpdateChangesMatched(s: seq<Topic>, topic: Topic, k: nat, i: nat)
    requires Named(s) && k < |s| && i < |s| && Key(s[k]) == Key(topic) && topic.IsWildcardTopic()
    ensures |WildcardUpdated(s, topic)| == |s|
    ensures
      var changed := !s[i].IsWildcardTopic() && s[k].Matches(s[i]);
      WildcardUpdated(s, topic)[i] == s[i].(handler := if changed then topic.handler else s[i].handler)
  {
    FindIsUnique(s, topic.name, k);
    if Key(s[i]) == Key(s[k]) {
      assert s[k].name != "" && s[i].name != "";
    }
  }

  /** Setting or clearing a flag changes the registrations of the entry at that index, and nothing else. */
  lemma {:induction false} FlagsChangeOneEntry(s: seq<Topic>, index: int, flag: bv2, i: nat)
    requires (flag == REG_PUB || flag == REG_SUB) && i < |s|
    ensures |Flagged(s, index, flag)| == |s| == |Unflagged(s, index, flag)|
    ensures Flagged(s, index, flag)[i].IsReg(flag) <==> i == index || s[i].IsReg(flag)
    ensures Unflagged(s, index, flag)[i].IsReg(flag) <==> i != index && s[i].IsReg(flag)
    ensures Flagged(s, index, flag)[i].(regFlag := s[i].regFlag) == s[i]
    ensures Unflagged(s, index, flag)[i].(regFlag := s[i].regFlag) == s[i]
    ensures i != index ==> Flagged(s, index, flag)[i] == s[i] == Unflagged(s, index, flag)[i]
  {
    FlagsAreIndependent(s[i], flag, flag);
  }

  /** Removing an entry that is no wildcard takes its name out of the list, and leaves the others as and where they
      were. */
  lemma {:induction false} RemoveIsMapRemoval(s: seq<Topic>, index: nat, name: string)
    requires Named(s) && index < |s| && !s[index].IsWildcardTopic()
    ensures LookUp(Removed(s, index), name) == if CString(name) == Key(s[index]) then Absent else LookUp(s, name)
    ensures Keys(Removed(s, index)) == Keys(s)[..index] + Keys(s)[index + 1..]
  {
    FoundOrNot(s, name);
    KeysWithout(s, index);
    if Find(s, name) != -1 && Find(s, name) != index {
      PresentWithout(s, index, name);
    } else {
      AbsentWithout(s, index, name);
    }
  }

  lemma {:induction false} KeysWithout(s: seq<Topic>, index: nat)
    requires index < |s|
    ensures Keys(Without(s, index)) == Keys(s)[..index] + Keys(s)[index + 1..]
  {
  }

  lemma {:induction false} PresentWithout(s: seq<Topic>, index: nat, name: string)
    requires Named(s) && index < |s| && Find(s, name) != -1 && Find(s, name) != index
    requires 0 <= Find(s, name) < |s| && Key(s[Find(s, name)]) == CString(name)
    ensures LookUp(Without(s, index), name) == LookUp(s, name)
  {
    var t, k := Without(s, index), Find(s, name);
    WithoutStaysNamed(s, index);
    FindIsUnique(t, name, if k < index then k else k - 1);
  }

  lemma {:induction false} AbsentWithout(s: seq<Topic>, index: nat, name: string)
    requires Named(s) && index < |s| && forall i :: 0 <= i < |s| && i != index ==> Key(s[i]) != CString(name)
    ensures LookUp(Without(s, index), name) == Absent
  {
    var t := Without(s, index);
    forall i | 0 <= i < |t| ensures !IsNamed(name)(t[i]) {
      assert t[i] == s[if i < index then i else i + 1];
    }
    FirstIsUnique(t, IsNamed(name), -1);
  }

  /** An index the list does not have removes nothing. */
  lemma {:induction false} RemoveNowhere(s: seq<Topic>, index: int)
    requires !(0 <= index < |s|)
    ensures Removed(s, index) == s
  {
  }

  /** Where removal of a wildcard is exact, it takes out the wildcard and what it matches, and nothing else. */
  lemma {:induction false} RemoveTakesMatched(s: seq<Topic>, index: nat, i: nat)
    requires Named(s) && index < |s| && i < |s| && s[index].IsWildcardTopic()
    requires forall j :: 0 <= j < index ==> !s[index].Matches(s[j])
    ensures s[i] in Removed(s, index) <==> i != index && !s[index].Matches(s[i])
  {
    var w := s[index];
    var before, after := s[..index], s[index + 1..];
    RemoveIsExactIffNothingBefore(s, index);
    UnmatchedHolds(before, w, s[i]);
    UnmatchedHolds(after, w, s[i]);
    if i < index {
      assert before[i] == s[i];
    } else if i > index {
      assert after[i - index - 1] == s[i];
    } else {
      forall j | 0 <= j < |s| && j != index ensures s[j] != s[index] {
        assert Key(s[j]) != Key(s[index]);
      }
      assert s[i] !in before && s[i] !in after;
    }
  }

  lemma {:induction false} UnmatchedHolds(s: seq<Topic>, w: Topic, t: Topic)
    ensures t in Unmatched(s, w) <==> t in s && !w.Matches(t)
  {
    if s != [] {
      UnmatchedHolds(s[1..], w, t);
      assert s == [s[0]] + s[1..];
    }
  }

  lemma {:induction false} UnmatchedParts(s: seq<Topic>, w: Topic)
    ensures |Unmatched(s, w)| == |s| <==> forall i :: 0 <= i < |s| ==> !w.Matches(s[i])
    ensures forall t :: t in Unmatched(s, w) ==> t in s
  {
    if s != [] {
      UnmatchedParts(s[1..], w);
      assert forall i :: 0 <= i < |s[1..]| ==> s[1..][i] == s[i + 1];
    }
  }

  /** Removing a wildcard leaves the list without it and everything it matches, in order, if and only if
      nothing before it is matched. */
  lemma {:induction false} RemoveIsExactIffNothingBefore(s: seq<Topic>, index: nat)
    requires Named(s) && index < |s| && s[index].IsWildcardTopic()
    ensures Removed(s, index) == Unmatched(s[..index], s[index]) + Unmatched(s[index + 1..], s[index])
            <==> forall i :: 0 <= i < index ==> !s[index].Matches(s[i])
  {
    var w := s[index];
    var before, after := Unmatched(s[..index], w), Unmatched(s[index + 1..], w);
    UnmatchedParts(s[..index], w);
    assert forall i :: 0 <= i < index ==> s[..index][i] == s[i];
    SweptParts(s, index);
    if |before| == index {
      TakeOut(before, w, after);
    } else if after != [] && index <= |before| + |after| {
      WildcardSurvives(s, index, before, after);
    } else {
      assert |before + [w] + after| != |before + after|;
    }
  }

  lemma {:induction false} SweptParts(s: seq<Topic>, index: nat)
    requires index < |s|
    ensures SweptFrom(s, index, 0) == Unmatched(s[..index], s[index]) + [s[index]] + Unmatched(s[index + 1..], s[index])
  {
    assert s[0..index] == s[..index];
    assert s[..0] + Swept(s, index, 0) == Swept(s, index, 0);
  }

  lemma {:induction false} WildcardSurvives(s: seq<Topic>, index: nat, before: seq<Topic>, after: seq<Topic>)
    requires Named(s) && index < |s| && |before| < index <= |before| + |after|
    requires after == Unmatched(s[index + 1..], s[index])
    ensures Without(before + [s[index]] + after, index) != before + after
  {
    var w := s[index];
    UnmatchedParts(s[index + 1..], w);
    assert after[0] in s[index + 1..];
    var j :| 0 <= j < |s[index + 1..]| && s[index + 1..][j] == after[0];
    assert Key(s[index]) != Key(s[index + 1 + j]);
    assert Without(before + [w] + after, index)[|before|] == (before + [w] + after)[|before|] == w;
    assert (before + after)[|before|] == after[0];
  }

  /** With an earlier match the index is off by then: here the wildcard itself survives. */
  lemma {:induction false} RemoveCanMissItsEntry(a: Topic, w: Topic)
    requires a.name == "a" && w.name == "+"
    ensures Named([a, w]) && Removed([a, w], 1) == [w]
  {
    var s := [a, w];
    assert CString("+") == "+" && CString("a") == "a";
    assert w.IsWildcardTopic();
    assert w.Matches(a) by {
      assert "+"[1..] == "" && "a"[1..] == "";
      assert Scan("", "");
    }
    assert s[0..1] == [a] && s[2..] == [];
    assert [a][1..] == [];
    assert Unmatched([a], w) == [];
    assert SweptFrom(s, 1, 0) == [w];
  }
}

module TopicRegistries {
  import opened TopicFilters
  import opened Lists
  import opened TopicSpec

  class NbiotTopicRegistry {
    const registry: List<Topic>

    ghost predicate Valid()
      reads this, registry, registry.nodes
    {
      registry.Valid() && registry.invalidItem == NO_TOPIC && Named(registry.items)
    }

    ghost function Entries(): seq<Topic>
      reads this, registry
    {
      registry.items
    }

    constructor ()
      ensures Valid() && Entries() == [] && fresh(registry) && fresh(registry.nodes)
    {
      registry := new List<Topic>(NO_TOPIC);
    }

    method InsertTopic(topic: Topic)
      requires Valid()
      modifies registry, registry.nodes
      ensures Valid() && fresh(registry.nodes - old(registry.nodes)) && Entries() == Inserted(old(Entries()), topic)
    {
      InsertStaysNamed(Entries(), topic);
      if topic.name != "" {
        var index := registry.IndexOf(IsNamed(topic.name));
        if -1 == index {
          registry.Append(topic);
        } else {
          var entry := registry.At(index);
          registry.Set(index, entry.Assigned(topic));
        }
      }
    }

    /** Gives a topic the handler of the first registered wildcard that matches it. */
    method AttachWildcardMessageHandler(topic: Topic) returns (ret: bool, attached: Topic)
      requires Valid()
      ensures ret <==> exists i :: 0 <= i < |Entries()| && Entries()[i].IsWildcardTopic() && Entries()[i].Matches(topic)
      ensures !ret ==> attached == topic
      ensures ret ==> exists i ::
                        && 0 <= i < |Entries()| && Entries()[i].IsWildcardTopic() && Entries()[i].Matches(topic)
                        && attached == topic.(handler := Entries()[i].handler)
                        && forall j :: 0 <= j < i ==> !(Entries()[j].IsWildcardTopic() && Entries()[j].Matches(topic))
    {
      ret, attached := false, topic;
      ghost var i := 0;
      var it := registry.elements;
      while it != null
        invariant 0 <= i <= |Entries()| && it == NodeAt(registry.chain, i)
        invariant forall j :: 0 <= j < i ==> !(Entries()[j].IsWildcardTopic() && Entries()[j].Matches(topic))
        invariant !ret && attached == topic
        decreases |Entries()| - i
      {
        assert it.data == Entries()[i];
        if it.data.IsWildcardTopic() {
          var matched := IsTopicMatched(it.data.name, topic.name);
          if matched {
            attached := topic.(handler := it.data.handler);
            ret := true;
            break;
          }
        }
        it := it.next;
        i := i + 1;
      }
    }

    method RedirectEntry(w: Topic, mh: Handler, it: ListElement<Topic>, ghost i: nat) returns (ret: bool)
      requires registry.Valid() && i < |Entries()| && it == registry.chain[i]
      modifies registry`items, it`data
      ensures registry.Valid()
      ensures Entries() == old(Entries())[i := Redirected(w, old(Entries()[i]), mh)]
      ensures ret <==> Follows(w, old(Entries()[i]))
    {
      ret := false;
      if CString(it.data.name) != CString(w.name) && !it.data.IsWildcardTopic() {
        ret := IsTopicMatched(w.name, it.data.name);
        if ret {
          registry.Write(it, it.data.(handler := mh), i);
        }
      }
    }

    /** The loop by which a wildcard's handler reaches the entries that follow it. */
    method Redirect(w: Topic, mh: Handler) returns (ret: bool)
      requires registry.Valid()
      modifies registry`items, registry.nodes
      ensures registry.Valid()
      ensures Entries() == AllRedirected(old(Entries()), w, mh)
      ensures ret <==> SomeFollow(old(Entries()), w)
    {
      ghost var before := Entries();
      ghost var i := 0;
      var it := registry.elements;
      ret := false;
      while it != null
        invariant registry.Valid() && it == NodeAt(registry.chain, i)
        invariant RedirectedSoFar(before, w, mh, i, Entries(), ret)
        decreases |before| - i
      {
        ghost var entries := Entries();
        var follows := RedirectEntry(w, mh, it, i);
        OneMoreRedirected(before, w, mh, i, entries, ret, Entries(), follows);
        ret := ret || follows;
        it := it.next;
        i := i + 1;
      }
      AllAreRedirected(before, w, mh, Entries(), ret);
    }

    method UpdateWildcardMessageHandler(topic: Topic) returns (ret: bool)
      requires Valid()
      modifies registry, registry.nodes
      ensures Valid() && fresh(registry.nodes - old(registry.nodes)) && Entries() == WildcardUpdated(old(Entries()), topic)
      ensures ret <==>
              var k := Find(old(Entries()), topic.name);
              topic.IsWildcardTopic() && 0 <= k && SomeFollow(old(Entries()), old(Entries())[k])
    {
      SameNamesStayNamed(Entries(), WildcardUpdated(Entries(), topic));
      ret := false;
      if topic.IsWildcardTopic() {
        var index := registry.IndexOf(IsNamed(topic.name));
        if 0 <= index {
          var w := registry.At(index);
          ret := Redirect(w, topic.handler);
        }
      }
    }

    method AttachMessageHandler(index: int, mh: Handler) returns (ret: bool)
      requires Valid()
      modifies registry, registry.nodes
      ensures Valid() && fresh(registry.nodes - old(registry.nodes)) && Entries() == Attached(old(Entries()), index, mh)
      ensures ret <==> 0 <= index < |old(Entries())|
    {
      SameNamesStayNamed(Entries(), Attached(Entries(), index, mh));
      ret := false;
      if 0 <= index && registry.Count() > index {
        var topic := registry.Element(index);
        registry.Write(topic, topic.data.(handler := mh), index);
        if topic.data.IsWildcardTopic() {
          var _ := Redirect(topic.data, mh);
        }
        ret := true;
      }
    }

    method FindTopic(name: string) returns (ret: int)
      requires Valid()
      ensures ret == if CString(name) == "" then -1 else Find(Entries(), name)
    {
      ret := -1;
      if CString(name) != "" {
        ret := registry.IndexOf(IsNamed(name));
      }
    }

    method HasTopic(topicFilter: string, flag: bv2) returns (ret: bool)
      requires Valid()
      ensures ret <==> CString(topicFilter) != "" && Registered(Entries(), topicFilter, flag)
    {
      ret := false;
      var index := FindTopic(topicFilter);
      if 0 <= index {
        var entry := registry.At(index);
        ret := entry.IsReg(flag);
      }
      FoundOrNot(Entries(), topicFilter);
    }

    method SetTopicFlag(index: int, flag: bv2)
      requires Valid()
      modifies registry, registry.nodes
      ensures Valid() && fresh(registry.nodes - old(registry.nodes)) && Entries() == Flagged(old(Entries()), index, flag)
    {
      SameNamesStayNamed(Entries(), Flagged(Entries(), index, flag));
      if 0 <= index && registry.Count() > index {
        var entry := registry.At(index);
        registry.Set(index, entry.SetReg(flag));
      }
    }

    method UnsetTopicFlag(index: int, flag: bv2)
      requires Valid()
      modifies registry, registry.nodes
      ensures Valid() && fresh(registry.nodes - old(registry.nodes)) && Entries() == Unflagged(old(Entries()), index, flag)
    {
      SameNamesStayNamed(Entries(), Unflagged(Entries(), index, flag));
      if 0 <= index && registry.Count() > index {
        var entry := registry.At(index);
        registry.Set(index, entry.UnsetReg(flag));
      }
    }

    method RemoveMatched(topic: Topic, i: nat)
      requires registry.Valid() && i < |Entries()|
      modifies registry, registry.nodes
      ensures registry.Valid() && registry.nodes == old(registry.nodes)
      ensures registry.invalidItem == old(registry.invalidItem)
      ensures Entries() == if topic.Matches(old(Entries()[i])) then Without(old(Entries()), i) else old(Entries())
    {
      var entry := registry.At(i);
      var matched := IsTopicMatched(topic.name, entry.name);
      if matched {
        registry.Remove(i);
      }
    }

    /** The downward loop that takes out what a wildcard matches. */
    method Sweep(topic: Topic, index: nat)
      requires registry.Valid() && index < |Entries()| && topic == Entries()[index]
      modifies registry, registry.nodes
      ensures registry.Valid() && registry.invalidItem == old(registry.invalidItem)
      ensures registry.nodes == old(registry.nodes)
      ensures Entries() == SweptFrom(old(Entries()), index, 0)
    {
      ghost var s := Entries();
      var i := registry.Count() - 1;
      while i >= 0
        invariant -1 <= i < |s|
        invariant registry.Valid() && registry.invalidItem == old(registry.invalidItem)
        invariant registry.nodes == old(registry.nodes)
        invariant Entries() == SweepDown(s, index, i + 1)
      {
        SweepDownKeepsBelow(s, index, i + 1);
        if index != i {
          RemoveMatched(topic, i);
        }
        i := i - 1;
      }
      SweepDownLeaves(s, index, 0);
    }

    method RemoveTopic(index: int)
      requires Valid()
      modifies registry, registry.nodes
      ensures Valid() && fresh(registry.nodes - old(registry.nodes)) && Entries() == Removed(old(Entries()), index)
    {
      RemoveStaysNamed(Entries(), index);
      var topic := registry.At(index);
      if topic.IsWildcardTopic() {
        Sweep(topic, index);
      }
      registry.Remove(index);
    }

    method ClearRegistry()
      requires Valid()
      modifies registry
      ensures Valid() && Entries() == []
    {
      registry.Clear();
    }
  }
}
