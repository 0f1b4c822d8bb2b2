/** The configured forums: the duplicate check of LoadConfig, and the lookups by subforum id. */
module Config {
  import opened Options

  datatype Subforum = Subforum(name: string, id: string, threadPriv: nat, replyPriv: nat)

  datatype ForumGroup = ForumGroup(name: string, subforums: seq<Subforum>)

  datatype Duplicate = DuplicateForumName | DuplicateSubforumName

  // ---------- The configuration as one scan ----------

  /** What the nested loops look at, in order: each forum name, then the ids below it. */
  datatype Token = ForumName(name: string) | SubforumId(id: string)

  function IdTokens(subs: seq<Subforum>): (ts: seq<Token>)
    ensures |ts| == |subs|
  {
    seq(|subs|, i requires 0 <= i < |subs| => SubforumId(subs[i].id))
  }

  function Tokens(groups: seq<ForumGroup>): seq<Token> {
    if groups == [] then []
    else
      var g := groups[|groups| - 1];
      Tokens(groups[..|groups| - 1]) + [ForumName(g.name)] + IdTokens(g.subforums)
  }

  ghost predicate Repeats(ts: seq<Token>, j: nat) {
    j < |ts| && exists i :: 0 <= i < j && ts[i] == ts[j]
  }

  /** The verdict on a scan: fine without repetition, else the kind of the first token that repeats an earlier one. */
  ghost predicate Verdict(ts: seq<Token>, v: Option<Duplicate>) {
    match v
    case None => forall j :: 0 <= j < |ts| ==> !Repeats(ts, j)
    case Some(d) =>
      exists j :: 0 <= j < |ts| && Repeats(ts, j)
                  && (d.DuplicateForumName? <==> ts[j].ForumName?)
                  && forall i :: 0 <= i < j ==> !Repeats(ts, i)
  }

  lemma {:induction false} TokensPrefix(groups: seq<ForumGroup>, i: nat)
    requires i <= |groups|
    ensures |Tokens(groups[..i])| <= |Tokens(groups)|
    ensures Tokens(groups[..i]) == Tokens(groups)[..|Tokens(groups[..i])|]
  {
    if i == |groups| {
      assert groups[..i] == groups;
    } else {
      var rest := groups[..|groups| - 1];
      TokensPrefix(rest, i);
      assert rest[..i] == groups[..i];
    }
  }

  lemma TokensOfNext(groups: seq<ForumGroup>, i: nat)
    requires i < |groups|
    ensures Tokens(groups[..i + 1]) == Tokens(groups[..i]) + [ForumName(groups[i].name)] + IdTokens(groups[i].subforums)
  {
    assert groups[..i + 1][..i] == groups[..i];
  }

  /** The number of tokens before forum i. */
  function FirstToken(groups: seq<ForumGroup>, i: nat): nat
    requires i <= |groups|
  {
    |Tokens(groups[..i])|
  }

  lemma FirstTokens(groups: seq<ForumGroup>)
    ensures FirstToken(groups, 0) == 0 && FirstToken(groups, |groups|) == |Tokens(groups)|
  {
    assert groups[..|groups|] == groups;
  }

  /** Where the tokens of one forum stand in the scan. */
  lemma TokensOfGroup(groups: seq<ForumGroup>, i: nat)
    requires i < |groups|
    ensures FirstToken(groups, i) + 1 + |groups[i].subforums| == FirstToken(groups, i + 1) <= |Tokens(groups)|
    ensures Tokens(groups)[FirstToken(groups, i)] == ForumName(groups[i].name)
  {
    TokensOfNext(groups, i);
    TokensPrefix(groups, i + 1);
    var here, n := Tokens(groups[..i + 1]), |Tokens(groups[..i])|;
    hide Tokens;
    assert here[n] == ForumName(groups[i].name);
  }

  lemma TokenOfId(groups: seq<ForumGroup>, i: nat, k: nat)
    requires i < |groups| && k < |groups[i].subforums|
    ensures FirstToken(groups, i) + 1 + k < |Tokens(groups)|
    ensures Tokens(groups)[FirstToken(groups, i) + 1 + k] == SubforumId(groups[i].subforums[k].id)
  {
    TokensOfNext(groups, i);
    TokensPrefix(groups, i + 1);
    var here, n, ids := Tokens(groups[..i + 1]), |Tokens(groups[..i])|, IdTokens(groups[i].subforums);
    assert ids[k] == SubforumId(groups[i].subforums[k].id);
    hide Tokens, IdTokens;
    assert here[n + 1 + k] == ids[k];
  }

  /** The first n tokens are in the two maps, and none of them repeats an earlier one. */
  ghost predicate Scanned(ts: seq<Token>, n: nat, forumNames: set<string>, subforumNames: set<string>)
    requires n <= |ts|
  {
    && (forall x :: x in forumNames <==> ForumName(x) in ts[..n])
    && (forall x :: x in subforumNames <==> SubforumId(x) in ts[..n])
    && (forall j :: 0 <= j < n ==> !Repeats(ts, j))
  }

  lemma RepeatsIfSeen(ts: seq<Token>, n: nat)
    requires n < |ts|
    ensures Repeats(ts, n) <==> ts[n] in ts[..n]
  {
  }

  lemma ScanForumName(ts: seq<Token>, n: nat, name: string, forumNames: set<string>, subforumNames: set<string>)
    requires n < |ts| && Scanned(ts, n, forumNames, subforumNames) && ts[n] == ForumName(name)
    ensures name in forumNames ==> Verdict(ts, Some(DuplicateForumName))
    ensures name !in forumNames ==> Scanned(ts, n + 1, forumNames + {name}, subforumNames)
  {
    RepeatsIfSeen(ts, n);
    assert ts[..n + 1] == ts[..n] + [ts[n]];
  }

  lemma ScanSubforumId(ts: seq<Token>, n: nat, id: string, forumNames: set<string>, subforumNames: set<string>)
    requires n < |ts| && Scanned(ts, n, forumNames, subforumNames) && ts[n] == SubforumId(id)
    ensures id in subforumNames ==> Verdict(ts, Some(DuplicateSubforumName))
    ensures id !in subforumNames ==> Scanned(ts, n + 1, forumNames, subforumNames + {id})
  {
    RepeatsIfSeen(ts, n);
    assert ts[..n + 1] == ts[..n] + [ts[n]];
  }

  lemma ScanStarts(ts: seq<Token>)
    ensures Scanned(ts, 0, {}, {})
  {
  }

  lemma ScanEnds(ts: seq<Token>, forumNames: set<string>, subforumNames: set<string>)
    requires Scanned(ts, |ts|, forumNames, subforumNames)
    ensures Verdict(ts, None)
  {
  }

  /** The nested scan of LoadConfig. */
  method CheckDuplicates(groups: seq<ForumGroup>) returns (err: Option<Duplicate>)
    ensures Verdict(Tokens(groups), err)
  {
    hide Scanned, Verdict, Tokens, FirstToken, Repeats;
    var forumNames: set<string>, subforumNames: set<string> := {}, {};
    ghost var ts := Tokens(groups);
    ScanStarts(ts);
    FirstTokens(groups);
    for i := 0 to |groups|
      invariant FirstToken(groups, i) <= |ts|
      invariant Scanned(ts, FirstToken(groups, i), forumNames, subforumNames)
    {
      var f := groups[i];
      ghost var n := FirstToken(groups, i);
      TokensOfGroup(groups, i);
      ScanForumName(ts, n, f.name, forumNames, subforumNames);
      if f.name in forumNames {
        return Some(DuplicateForumName);
      }
      forumNames := forumNames + {f.name};
      for k := 0 to |f.subforums|
        invariant Scanned(ts, n + 1 + k, forumNames, subforumNames)
      {
        var s := f.subforums[k];
        TokenOfId(groups, i, k);
        ScanSubforumId(ts, n + 1 + k, s.id, forumNames, subforumNames);
        if s.id in subforumNames {
          return Some(DuplicateSubforumName);
        }
        subforumNames := subforumNames + {s.id};
      }
    }
    ScanEnds(ts, forumNames, subforumNames);
    return None;
  }

  // ---------- Lookups ----------

  ghost predicate At(groups: seq<ForumGroup>, i: int, k: int, id: string) {
    0 <= i < |groups| && 0 <= k < |groups[i].subforums| && groups[i].subforums[k].id == id
  }

  ghost predicate Accepted(groups: seq<ForumGroup>) {
    Verdict(Tokens(groups), None)
  }

  lemma GroupsAscend(groups: seq<ForumGroup>, i: nat, i': nat)
    requires i < i' < |groups|
    ensures FirstToken(groups, i) + 1 + |groups[i].subforums| <= FirstToken(groups, i')
  {
    TokensOfGroup(groups, i);
    TokensPrefix(groups[..i'], i + 1);
    assert groups[..i'][..i + 1] == groups[..i + 1];
  }

  /** In an accepted configuration an id names one subforum, so both lookups find the same one. */
  lemma SubforumIsUnique(groups: seq<ForumGroup>, id: string, i: int, k: int, i': int, k': int)
    requires Accepted(groups)
    requires At(groups, i, k, id) && At(groups, i', k', id)
    ensures i == i' && k == k'
  {
    TokenOfId(groups, i, k);
    TokenOfId(groups, i', k');
    var ts := Tokens(groups);
    var at, at' := FirstToken(groups, i) + 1 + k, FirstToken(groups, i') + 1 + k';
    hide Tokens, FirstToken;
    assert ts[at] == SubforumId(id) && ts[at'] == SubforumId(id);
    assert at == at' by {
      assert !Repeats(ts, at) && !Repeats(ts, at');
    }
    if i < i' {
      GroupsAscend(groups, i, i');
    } else if i' < i {
      GroupsAscend(groups, i', i);
    }
  }

  /** The subforums of a list under their ids. */
  function TableOf(subs: seq<Subforum>): map<string, Subforum> {
    if subs == [] then map[] else TableOf(subs[..|subs| - 1])[subs[|subs| - 1].id := subs[|subs| - 1]]
  }

  /** The configured subforums under their ids. */
  function Table(groups: seq<ForumGroup>): map<string, Subforum> {
    if groups == [] then map[] else Table(groups[..|groups| - 1]) + TableOf(groups[|groups| - 1].subforums)
  }

  /** The priviledges to open threads and to reply, by id. */
  function PrivsOf(groups: seq<ForumGroup>): map<string, (nat, nat)> {
    map id | id in Table(groups) :: (Table(groups)[id].threadPriv, Table(groups)[id].replyPriv)
  }

  lemma {:induction false} TableOfHolds(subs: seq<Subforum>, id: string)
    ensures id in TableOf(subs) <==> exists k :: 0 <= k < |subs| && subs[k].id == id
    ensures id in TableOf(subs) ==> exists k :: 0 <= k < |subs| && subs[k].id == id && TableOf(subs)[id] == subs[k]
  {
    if subs == [] {
    } else {
      var init := subs[..|subs| - 1];
      TableOfHolds(init, id);
      assert forall k :: 0 <= k < |init| ==> init[k] == subs[k];
    }
  }

  /** The table has exactly the configured ids, each with a subforum of that id. */
  lemma {:induction false} TableHolds(groups: seq<ForumGroup>, id: string)
    ensures id in Table(groups) <==> exists i, k :: At(groups, i, k, id)
    ensures id in Table(groups) ==> exists i, k :: At(groups, i, k, id) && Table(groups)[id] == groups[i].subforums[k]
  {
    if groups == [] {
    } else {
      var n := |groups| - 1;
      var init, subs := groups[..n], groups[n].subforums;
      TableHolds(init, id);
      TableOfHolds(subs, id);
      hide Table, TableOf;
      assert Table(groups) == Table(init) + TableOf(subs) by { TableSnoc(groups); }
      if id in TableOf(subs) {
        var k :| 0 <= k < |subs| && subs[k].id == id && TableOf(subs)[id] == subs[k];
        assert At(groups, n, k, id);
      } else if id in Table(init) {
        var i, k :| At(init, i, k, id) && Table(init)[id] == init[i].subforums[k];
        assert At(groups, i, k, id);
      }
      forall i, k | At(groups, i, k, id) ensures id in Table(groups) {
        if i < n {
          assert At(init, i, k, id);
        } else {
          assert subs[k].id == id;
        }
      }
    }
  }

  lemma TableSnoc(groups: seq<ForumGroup>)
    requires groups != []
    ensures Table(groups) == Table(groups[..|groups| - 1]) + TableOf(groups[|groups| - 1].subforums)
  {
  }

  /** In an accepted configuration, the entry of an id is the subforum that has it, wherever it stands. */
  lemma TableIs(groups: seq<ForumGroup>, i: int, k: int, id: string)
    requires Accepted(groups) && At(groups, i, k, id)
    ensures id in Table(groups) && Table(groups)[id] == groups[i].subforums[k]
  {
    hide Tokens, Table, Verdict;
    TableHolds(groups, id);
    var i', k' :| At(groups, i', k', id) && Table(groups)[id] == groups[i'].subforums[k'];
    SubforumIsUnique(groups, id, i, k, i', k');
  }

  /** GetSubforumPrivFromID: the priviledges of a subforum with this id, if there is one. */
  method GetSubforumPrivFromID(groups: seq<ForumGroup>, id: string) returns (r: Option<(nat, nat)>)
    ensures r.None? <==> forall i, k :: !At(groups, i, k, id)
    ensures r.Some? ==> exists i, k ::
      At(groups, i, k, id) && r.value == (groups[i].subforums[k].threadPriv, groups[i].subforums[k].replyPriv)
    ensures Accepted(groups) ==> r == if id in PrivsOf(groups) then Some(PrivsOf(groups)[id]) else None
  {
    hide Table, Accepted;
    TableHolds(groups, id);
    for i := 0 to |groups|
      invariant forall i', k :: i' < i ==> !At(groups, i', k, id)
    {
      for k := 0 to |groups[i].subforums|
        invariant forall k' :: k' < k ==> !At(groups, i, k', id)
      {
        var subf := groups[i].subforums[k];
        if subf.id == id {
          assert At(groups, i, k, id);
          if Accepted(groups) {
            TableIs(groups, i, k, id);
          }
          return Some((subf.threadPriv, subf.replyPriv));
        }
      }
    }
    return None;
  }

  /** SubforumExists: the name of a subforum with this id, if there is one. */
  method SubforumExists(groups: seq<ForumGroup>, id: string) returns (r: Option<string>)
    ensures r.None? <==> forall i, k :: !At(groups, i, k, id)
    ensures r.Some? ==> exists i, k :: At(groups, i, k, id) && r.value == groups[i].subforums[k].name
    ensures Accepted(groups) ==> r == if id in Table(groups) then Some(Table(groups)[id].name) else None
  {
    hide Table, Accepted;
    TableHolds(groups, id);
    for i := 0 to |groups|
      invariant forall i', k :: i' < i ==> !At(groups, i', k, id)
    {
      for k := 0 to |groups[i].subforums|
        invariant forall k' :: k' < k ==> !At(groups, i, k', id)
      {
        if groups[i].subforums[k].id == id {
          assert At(groups, i, k, id);
          if Accepted(groups) {
            TableIs(groups, i, k, id);
          }
          return Some(groups[i].subforums[k].name);
        }
      }
    }
    return None;
  }

  ghost predicate DistinctNames(groups: seq<ForumGroup>) {
    forall i, i' :: 0 <= i < i' < |groups| ==> groups[i].name != groups[i'].name
  }

  ghost predicate DistinctIds(groups: seq<ForumGroup>) {
    forall id, i, k, i', k' :: At(groups, i, k, id) && At(groups, i', k', id) ==> i == i' && k == k'
  }

  /** Every token is a forum name (k == -1) or the id of a subforum. */
  lemma {:induction false} PlaceOf(groups: seq<ForumGroup>, at: nat, upto: nat) returns (i: nat, k: int)
    requires upto <= |groups| && at < FirstToken(groups, upto)
    ensures i < |groups| && -1 <= k < |groups[i].subforums| && at == FirstToken(groups, i) + 1 + k
  {
    hide FirstToken, Tokens;
    FirstTokens(groups);
    TokensOfGroup(groups, upto - 1);
    if at < FirstToken(groups, upto - 1) {
      i, k := PlaceOf(groups, at, upto - 1);
    } else {
      i, k := upto - 1, at - FirstToken(groups, upto - 1) - 1;
    }
  }

  lemma NamesOfAccepted(groups: seq<ForumGroup>)
    requires Accepted(groups)
    ensures DistinctNames(groups)
  {
    hide Tokens, FirstToken;
    var ts := Tokens(groups);
    forall i, i' | 0 <= i < i' < |groups| ensures groups[i].name != groups[i'].name {
      TokensOfGroup(groups, i);
      TokensOfGroup(groups, i');
      GroupsAscend(groups, i, i');
      assert !Repeats(ts, FirstToken(groups, i'));
    }
  }

  lemma DistinctIsAccepted(groups: seq<ForumGroup>, m: nat, at: nat)
    requires DistinctNames(groups) && DistinctIds(groups)
    requires m < at < |Tokens(groups)|
    ensures Tokens(groups)[m] != Tokens(groups)[at]
  {
    hide Tokens, FirstToken;
    FirstTokens(groups);
    var i, k := PlaceOf(groups, m, |groups|);
    var i', k' := PlaceOf(groups, at, |groups|);
    TokensOfGroup(groups, i);
    TokensOfGroup(groups, i');
    if k >= 0 {
      TokenOfId(groups, i, k);
      assert At(groups, i, k, groups[i].subforums[k].id);
    }
    if k' >= 0 {
      TokenOfId(groups, i', k');
      assert At(groups, i', k', groups[i'].subforums[k'].id);
    }
    assert i < i' ==> groups[i].name != groups[i'].name;
    assert i' < i ==> groups[i'].name != groups[i].name;
  }

  /** The scan accepts exactly the configurations with distinct forum names and distinct subforum ids. */
  lemma AcceptedIffDistinct(groups: seq<ForumGroup>)
    ensures Accepted(groups) <==> DistinctNames(groups) && DistinctIds(groups)
  {
    hide Tokens, DistinctNames;
    if Accepted(groups) {
      NamesOfAccepted(groups);
      forall id, i, k, i', k' | At(groups, i, k, id) && At(groups, i', k', id) ensures i == i' && k == k' {
        SubforumIsUnique(groups, id, i, k, i', k');
      }
    }
    if DistinctNames(groups) && DistinctIds(groups) {
      forall at | 0 <= at < |Tokens(groups)| ensures !Repeats(Tokens(groups), at) {
        forall m | 0 <= m < at ensures Tokens(groups)[m] != Tokens(groups)[at] {
          DistinctIsAccepted(groups, m, at);
        }
      }
    }
  }

  // ---------- The buckets of the configured subforums ----------

  /** GetAllSubforumIDs. */
  method GetAllSubforumIDs(groups: seq<ForumGroup>) returns (all: seq<string>)
    ensures forall id :: id in all <==> exists i, k :: At(groups, i, k, id)
    ensures (set id | id in all) == Table(groups).Keys
  {
    hide Table;
    all := [];
    for i := 0 to |groups|
      invariant forall id :: id in all <==> exists i', k :: i' < i && At(groups, i', k, id)
    {
      ghost var before := all;
      for k := 0 to |groups[i].subforums|
        invariant forall id :: id in all <==> id in before || exists k' :: k' < k && At(groups, i, k', id)
      {
        ghost var was := all;
        all := all + [groups[i].subforums[k].id];
        assert At(groups, i, k, groups[i].subforums[k].id);
        assert forall id :: id in all <==> id in was || id == groups[i].subforums[k].id;
      }
    }
    forall id ensures id in all <==> id in Table(groups) {
      TableHolds(groups, id);
    }
  }
}
