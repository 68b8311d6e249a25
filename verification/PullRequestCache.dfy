/**
 The pull request cache, its synchronisation with the forge's open list, the
 grouping by shared head, and the convergence run that publishes once per head.
 */
module PullRequestCache {
  import opened Wrappers

  datatype PullRequest = PullRequest(
    repositoryID: int, index: int, state: string, targetBranch: string, headSHA: string, title: string, url: string)
  {
    predicate Open() { state == "open" }
  }

  /** Rows by repository and pull request number. */
  type Key = (int, int)
  type Cache = map<Key, PullRequest>

  /** The library's trimming and lower-casing. */
  datatype Text = Text(trim: string -> string, lower: string -> string)

  const MAX_INDEX := 1_000_000

  function Normalized(text: Text, pr: PullRequest): PullRequest {
    var state := text.lower(text.trim(pr.state));
    pr.(state := if state == "" then "open" else state, targetBranch := text.trim(pr.targetBranch),
        headSHA := text.lower(text.trim(pr.headSHA)), title := text.trim(pr.title), url := text.trim(pr.url))
  }

  predicate NoControl(s: string) { forall i :: 0 <= i < |s| ==> s[i] as int >= 0x20 && s[i] as int != 0x7f }

  predicate IsHex(s: string) { forall i :: 0 <= i < |s| ==> '0' <= s[i] <= '9' || 'a' <= s[i] <= 'f' }

  predicate Valid(pr: PullRequest) {
    && pr.repositoryID > 0 && 0 < pr.index <= MAX_INDEX
    && |pr.state| <= 50 && NoControl(pr.state)
    && 0 < |pr.targetBranch| <= 255 && NoControl(pr.targetBranch)
    && 6 <= |pr.headSHA| <= 64 && IsHex(pr.headSHA)
    && |pr.title| <= 500 && NoControl(pr.title) && |pr.url| <= 2048 && NoControl(pr.url)
  }

  // -------------------------------------------------------- synchronisation

  /** The row a listed pull request becomes. */
  function Row(text: Text, repositoryID: int, branch: string, pr: PullRequest): PullRequest {
    Normalized(text, pr.(repositoryID := repositoryID, targetBranch := if pr.targetBranch == "" then branch else pr.targetBranch))
  }

  function Upserted(text: Text, cache: Cache, repositoryID: int, branch: string, prs: seq<PullRequest>): Cache {
    if prs == [] then cache
    else
      var row := Row(text, repositoryID, branch, prs[|prs| - 1]);
      Upserted(text, cache, repositoryID, branch, prs[..|prs| - 1])[(row.repositoryID, row.index) := row]
  }

  /** How many listed pull requests pass validation before the first that does not. */
  function ValidPrefix(text: Text, repositoryID: int, branch: string, prs: seq<PullRequest>): (n: nat)
    ensures n <= |prs|
  {
    if prs == [] then 0
    else
      var n := ValidPrefix(text, repositoryID, branch, prs[..|prs| - 1]);
      if n == |prs| - 1 && Valid(Row(text, repositoryID, branch, prs[|prs| - 1])) then n + 1 else n
  }

  predicate Absent(row: PullRequest, repositoryID: int, branch: string, open: set<int>) {
    row.repositoryID == repositoryID && row.Open() && (branch == "" || row.targetBranch == branch) && row.index !in open
  }

  function AbsentClosed(cache: Cache, repositoryID: int, branch: string, open: set<int>): Cache {
    map k | k in cache ::
      if Absent(cache[k], repositoryID, branch, open) then cache[k].(state := "closed") else cache[k]
  }

  function Indexes(prs: seq<PullRequest>): set<int> { set i | 0 <= i < |prs| :: prs[i].index }

  datatype SyncResult = Synced | NotListed | Rejected

  /** `listing` is None when the token, the client or the forge fails before anything is cached. */
  function Sync(text: Text, cache: Cache, repositoryID: int, target: string, listing: Option<seq<PullRequest>>): (Cache, SyncResult) {
    if listing.None? then (cache, NotListed)
    else
      var branch, prs := text.trim(target), listing.value;
      var n := ValidPrefix(text, repositoryID, branch, prs);
      var cached := Upserted(text, cache, repositoryID, branch, prs[..n]);
      if n < |prs| || repositoryID <= 0 then (cached, Rejected)
      else (AbsentClosed(cached, repositoryID, text.trim(branch), Indexes(prs)), Synced)
  }

  // --------------------------------------------------------------- grouping

  /** Distinct non-empty heads in order of first appearance. */
  function Heads(prs: seq<PullRequest>): seq<string> {
    if prs == [] then []
    else
      var before, head := Heads(prs[..|prs| - 1]), prs[|prs| - 1].headSHA;
      if head == "" || head in before then before else before + [head]
  }

  function WithHead(prs: seq<PullRequest>, head: string): seq<PullRequest> {
    if prs == [] then []
    else WithHead(prs[..|prs| - 1], head) + if prs[|prs| - 1].headSHA == head then [prs[|prs| - 1]] else []
  }

  function Grouped(prs: seq<PullRequest>, heads: seq<string>): seq<seq<PullRequest>> {
    if heads == [] then []
    else Grouped(prs, heads[..|heads| - 1]) + [WithHead(prs, heads[|heads| - 1])]
  }

  lemma {:induction false} GroupedAt(prs: seq<PullRequest>, heads: seq<string>)
    ensures |Grouped(prs, heads)| == |heads|
    ensures forall i :: 0 <= i < |heads| ==> Grouped(prs, heads)[i] == WithHead(prs, heads[i])
  {
    if heads != [] { GroupedAt(prs, heads[..|heads| - 1]); }
  }

  lemma {:induction false} HeadsMeaning(prs: seq<PullRequest>, head: string)
    ensures head in Heads(prs) <==> head != "" && exists pr :: pr in prs && pr.headSHA == head
    ensures forall i, j :: 0 <= i < j < |Heads(prs)| ==> Heads(prs)[i] != Heads(prs)[j]
  {
    if prs != [] {
      var before, last := prs[..|prs| - 1], prs[|prs| - 1];
      HeadsMeaning(before, head);
      assert prs == before + [last];
      assert last in prs;
      if exists pr :: pr in prs && pr.headSHA == head {
        var pr :| pr in prs && pr.headSHA == head;
        assert pr in before || pr == last;
      }
    }
  }

  lemma {:induction false} WithHeadMembers(prs: seq<PullRequest>, head: string)
    ensures forall pr :: pr in WithHead(prs, head) <==> pr in prs && pr.headSHA == head
    ensures |WithHead(prs, head)| > 0 <==> exists pr :: pr in prs && pr.headSHA == head
  {
    if prs != [] {
      var before, last := prs[..|prs| - 1], prs[|prs| - 1];
      WithHeadMembers(before, head);
      assert forall pr :: pr in prs <==> pr in before || pr == last by { assert prs == before + [last]; }
    }
  }

  ghost predicate GroupsOf(prs: seq<PullRequest>, heads: seq<string>, groups: seq<seq<PullRequest>>) {
    |groups| == |heads| && forall j :: 0 <= j < |heads| ==> groups[j] == WithHead(prs, heads[j])
  }

  ghost predicate IndexOf(index: map<string, nat>, heads: seq<string>) {
    && (forall h :: h in index <==> h in heads)
    && (forall h :: h in index ==> index[h] < |heads| && heads[index[h]] == h)
  }

  lemma {:induction false} GroupsStep(before: seq<PullRequest>, pr: PullRequest, heads: seq<string>, groups: seq<seq<PullRequest>>)
    requires GroupsOf(before, heads, groups) && forall i, j :: 0 <= i < j < |heads| ==> heads[i] != heads[j]
    ensures pr.headSHA !in heads ==> GroupsOf(before + [pr], heads, groups)
    ensures forall j :: 0 <= j < |heads| && heads[j] == pr.headSHA ==>
              GroupsOf(before + [pr], heads, groups[j := groups[j] + [pr]])
  {
    assert (before + [pr])[..|before|] == before;
    if pr.headSHA !in heads {
      forall j | 0 <= j < |heads| ensures heads[j] != pr.headSHA { assert heads[j] in heads; }
    }
  }

  lemma {:induction false} FirstOfHead(before: seq<PullRequest>, pr: PullRequest)
    requires pr.headSHA != "" && pr.headSHA !in Heads(before)
    ensures WithHead(before + [pr], pr.headSHA) == [pr]
  {
    HeadsMeaning(before, pr.headSHA);
    WithHeadMembers(before, pr.headSHA);
    assert (before + [pr])[..|before|] == before;
  }

  lemma NewGroup(before: seq<PullRequest>, pr: PullRequest, heads: seq<string>, groups: seq<seq<PullRequest>>, index: map<string, nat>)
    requires GroupsOf(before + [pr], heads, groups) && IndexOf(index, heads) && pr.headSHA !in index
    requires WithHead(before + [pr], pr.headSHA) == [pr]
    ensures GroupsOf(before + [pr], heads + [pr.headSHA], groups + [[pr]])
    ensures IndexOf(index[pr.headSHA := |heads|], heads + [pr.headSHA])
  {
  }

  lemma {:induction false} HeadsStep(before: seq<PullRequest>, pr: PullRequest)
    ensures Heads(before + [pr])
         == if pr.headSHA == "" || pr.headSHA in Heads(before) then Heads(before) else Heads(before) + [pr.headSHA]
  {
    assert (before + [pr])[..|before|] == before;
  }

  method PullRequestsByHead(prs: seq<PullRequest>) returns (groups: seq<seq<PullRequest>>)
    ensures groups == Grouped(prs, Heads(prs))
  {
    groups := [];
    var indexByHead: map<string, nat> := map[];
    for i := 0 to |prs|
      invariant GroupsOf(prs[..i], Heads(prs[..i]), groups)
      invariant IndexOf(indexByHead, Heads(prs[..i]))
    {
      var pr := prs[i];
      ghost var before, heads := prs[..i], Heads(prs[..i]);
      assert prs[..i + 1] == before + [pr];
      HeadsMeaning(before, pr.headSHA);
      HeadsStep(before, pr);
      GroupsStep(before, pr, heads, groups);
      if pr.headSHA == "" { continue; }
      if pr.headSHA !in indexByHead {
        FirstOfHead(before, pr);
        NewGroup(before, pr, heads, groups, indexByHead);
        indexByHead := indexByHead[pr.headSHA := |groups|];
        groups := groups + [[pr]];
        continue;
      }
      var index := indexByHead[pr.headSHA];
      groups := groups[index := groups[index] + [pr]];
    }
    assert prs[..|prs|] == prs;
    GroupedAt(prs, Heads(prs));
    assert groups == Grouped(prs, Heads(prs));
  }

  // -------------------------------------------------------------- the convergence

  datatype Counts = Counts(managedBranches: nat, openPullRequests: nat, attempted: nat, posted: nat, failed: nat)

  /** What becomes of one group: its claim may be lost around the evaluation, or evaluation or publication fail. */
  datatype Fate = Posted | LostBefore | EvaluationFailed | LostAfter | PublicationFailed

  datatype Convergence = Converged | SyncFailed | ClaimLost | EvaluationError | PublicationError

  /** The groups published before the first that is not. */
  function PostedPrefix(fates: nat -> Fate, groups: nat): (n: nat)
    ensures n <= groups
    ensures forall i: nat :: i < n ==> fates(i) == Posted
    ensures n < groups ==> fates(n) != Posted
  {
    if groups == 0 then 0
    else
      var n := PostedPrefix(fates, groups - 1);
      if n == groups - 1 && fates(n) == Posted then n + 1 else n
  }

  class Cacher {
    const text: Text
    var cache: Cache

    constructor (text: Text, cache: Cache)
      ensures this.text == text && this.cache == cache
    {
      this.text, this.cache := text, cache;
    }

    method Upsert(pr: PullRequest) returns (ok: bool)
      modifies this
      ensures var row := Normalized(text, pr);
              && ok == Valid(row)
              && cache == if ok then old(cache)[(row.repositoryID, row.index) := row] else old(cache)
    {
      var row := Normalized(text, pr);
      if !Valid(row) { return false; }
      cache := cache[(row.repositoryID, row.index) := row];
      ok := true;
    }

    method MarkAbsentOpenClosed(repositoryID: int, target: string, open: seq<int>) returns (ok: bool)
      modifies this
      ensures ok <==> repositoryID > 0 && forall i :: 0 <= i < |open| ==> 0 < open[i] <= MAX_INDEX
      ensures cache == if ok then AbsentClosed(old(cache), repositoryID, text.trim(target), set i | 0 <= i < |open| :: open[i])
                       else old(cache)
    {
      var branch := text.trim(target);
      if repositoryID <= 0 { return false; }
      var indexes: set<int> := {};
      for i := 0 to |open|
        invariant indexes == set j | 0 <= j < i :: open[j]
        invariant forall j :: 0 <= j < i ==> 0 < open[j] <= MAX_INDEX
      {
        if open[i] <= 0 || open[i] > MAX_INDEX { return false; }
        indexes := indexes + {open[i]};
      }
      cache := map k | k in cache ::
        if Absent(cache[k], repositoryID, branch, indexes) then cache[k].(state := "closed") else cache[k];
      ok := true;
    }

    method CacheOne(repositoryID: int, branch: string, listed: PullRequest) returns (ok: bool)
      modifies this
      ensures var row := Row(text, repositoryID, branch, listed);
              && ok == Valid(row) && (ok ==> 0 < listed.index <= MAX_INDEX)
              && cache == if ok then old(cache)[(row.repositoryID, row.index) := row] else old(cache)
    {
      var pr := listed.(repositoryID := repositoryID);
      if pr.targetBranch == "" { pr := pr.(targetBranch := branch); }
      ok := Upsert(pr);
    }

    /** Caches the listing in order, up to the first entry that fails validation. */
    method CacheListing(repositoryID: int, branch: string, prs: seq<PullRequest>) returns (n: nat, open: seq<int>)
      modifies this
      ensures n == ValidPrefix(text, repositoryID, branch, prs)
      ensures cache == Upserted(text, old(cache), repositoryID, branch, prs[..n])
      ensures |open| == n && forall j :: 0 <= j < n ==> open[j] == prs[j].index && 0 < open[j] <= MAX_INDEX
    {
      open := [];
      for i := 0 to |prs|
        invariant cache == Upserted(text, old(cache), repositoryID, branch, prs[..i])
        invariant ValidPrefix(text, repositoryID, branch, prs[..i]) == i
        invariant |open| == i && forall j :: 0 <= j < i ==> open[j] == prs[j].index && 0 < open[j] <= MAX_INDEX
      {
        assert prs[..i + 1][..i] == prs[..i];
        var ok := CacheOne(repositoryID, branch, prs[i]);
        if !ok {
          PrefixStops(text, repositoryID, branch, prs, i);
          return i, open;
        }
        open := open + [prs[i].index];
      }
      assert prs[..|prs|] == prs;
      n := |prs|;
    }

    method SyncRepository(repositoryID: int, target: string, listing: Option<seq<PullRequest>>) returns (result: SyncResult)
      modifies this
      ensures (cache, result) == Sync(text, old(cache), repositoryID, target, listing)
    {
      if listing.None? { return NotListed; }
      var branch, prs := text.trim(target), listing.value;
      var n, open := CacheListing(repositoryID, branch, prs);
      if n < |prs| { return Rejected; }
      var ok := MarkAbsentOpenClosed(repositoryID, branch, open);
      assert (set i | 0 <= i < |open| :: open[i]) == Indexes(prs);
      result := if ok then Synced else Rejected;
    }

    /** One branch's open rows, by number. */
    method ListOpenByTargetBranch(repositoryID: int, target: string) returns (prs: Option<seq<PullRequest>>)
      ensures prs.Some? <==> repositoryID > 0 && text.trim(target) != ""
      ensures prs.Some? ==> ListsBranch(cache, repositoryID, text.trim(target), prs.value)
    {
      var branch := text.trim(target);
      if repositoryID <= 0 || branch == "" { return None; }
      var rest := set k | k in cache && OnBranch(cache[k], repositoryID, branch);
      var rows: seq<PullRequest> := [];
      while rest != {}
        invariant forall k :: k in rest ==> k in cache && OnBranch(cache[k], repositoryID, branch)
        invariant forall k :: k in cache && OnBranch(cache[k], repositoryID, branch) ==> k in rest || cache[k] in rows
        invariant forall pr :: pr in rows ==> OnBranch(pr, repositoryID, branch) && exists k :: k in cache && cache[k] == pr
        decreases |rest|
      {
        var k := Pick(rest);
        rest := rest - {k};
        rows := rows + [cache[k]];
      }
      var sorted := SortByIndex(rows);
      prs := Some(sorted);
    }

    method OpenManagedBranchPullRequests(repositoryID: int, branches: seq<string>) returns (merged: Option<seq<PullRequest>>)
      requires forall k :: k in cache ==> k == (cache[k].repositoryID, cache[k].index)
      ensures merged.Some? <==> (branches == [] || repositoryID > 0) && forall b :: b in branches ==> text.trim(b) != ""
      ensures merged.Some? ==> IsManagedOpen(text, cache, repositoryID, branches, merged.value)
    {
      var rows: seq<PullRequest>, seen: set<int> := [], {};
      for i := 0 to |branches|
        invariant i > 0 ==> repositoryID > 0
        invariant forall b :: b in branches[..i] ==> text.trim(b) != ""
        invariant forall j :: j in seen <==> exists pr :: pr in rows && pr.index == j
        invariant IsManagedOpen(text, cache, repositoryID, branches[..i], rows)
      {
        assert branches[..i + 1] == branches[..i] + [branches[i]];
        assert branches[i] in branches;
        var prs := ListOpenByTargetBranch(repositoryID, branches[i]);
        if prs.None? { return None; }
        rows, seen := MergeUnseen(repositoryID, branches[..i], branches[i], prs.value, rows, seen);
      }
      assert branches[..|branches|] == branches;
      merged := Some(rows);
    }

    method MergeUnseen(
      repositoryID: int, ghost before: seq<string>, branch: string, prs: seq<PullRequest>,
      rows: seq<PullRequest>, seen: set<int>) returns (merged: seq<PullRequest>, seen': set<int>)
      requires forall k :: k in cache ==> k == (cache[k].repositoryID, cache[k].index)
      requires forall j :: j in seen <==> exists pr :: pr in rows && pr.index == j
      requires ListsBranch(cache, repositoryID, text.trim(branch), prs)
      requires IsManagedOpen(text, cache, repositoryID, before, rows)
      ensures forall j :: j in seen' <==> exists pr :: pr in merged && pr.index == j
      ensures IsManagedOpen(text, cache, repositoryID, before + [branch], merged)
    {
      merged, seen' := rows, seen;
      for i := 0 to |prs|
        invariant forall j :: j in seen' <==> exists pr :: pr in merged && pr.index == j
        invariant DistinctIndexes(merged)
        invariant forall pr :: pr in rows ==> pr in merged
        invariant forall pr :: pr in prs[..i] ==> pr.index in seen'
        invariant forall pr :: pr in merged ==> pr in rows || pr in prs
      {
        if prs[i].index in seen' { continue; }
        seen' := seen' + {prs[i].index};
        merged := merged + [prs[i]];
      }
      MergedIsManaged(text, cache, repositoryID, before, branch, prs, rows, merged);
    }
  }

  predicate OnBranch(pr: PullRequest, repositoryID: int, branch: string) {
    pr.repositoryID == repositoryID && pr.targetBranch == branch && pr.Open()
  }

  ghost predicate ListsBranch(cache: Cache, repositoryID: int, branch: string, prs: seq<PullRequest>) {
    && (forall pr :: pr in prs <==> OnBranch(pr, repositoryID, branch) && exists k :: k in cache && cache[k] == pr)
    && (forall i, j :: 0 <= i < j < |prs| ==> prs[i].index <= prs[j].index)
  }

  ghost predicate DistinctIndexes(prs: seq<PullRequest>) {
    forall i, j :: 0 <= i < j < |prs| ==> prs[i].index != prs[j].index
  }

  /** Every open row on one of the branches, each once. */
  ghost predicate IsManagedOpen(text: Text, cache: Cache, repositoryID: int, branches: seq<string>, prs: seq<PullRequest>) {
    && DistinctIndexes(prs)
    && (forall pr :: pr in prs <==>
          && (exists k :: k in cache && cache[k] == pr)
          && exists b :: b in branches && OnBranch(pr, repositoryID, text.trim(b)))
  }

  lemma {:induction false} MergedIsManaged(
    text: Text, cache: Cache, repositoryID: int, before: seq<string>, branch: string, prs: seq<PullRequest>,
    rows: seq<PullRequest>, merged: seq<PullRequest>)
    requires forall k :: k in cache ==> k == (cache[k].repositoryID, cache[k].index)
    requires ListsBranch(cache, repositoryID, text.trim(branch), prs)
    requires IsManagedOpen(text, cache, repositoryID, before, rows) && DistinctIndexes(merged)
    requires forall pr :: pr in rows ==> pr in merged
    requires forall pr :: pr in prs ==> exists other :: other in merged && other.index == pr.index
    requires forall pr :: pr in merged ==> pr in rows || pr in prs
    ensures IsManagedOpen(text, cache, repositoryID, before + [branch], merged)
  {
    forall pr | pr in merged
      ensures (exists k :: k in cache && cache[k] == pr) && exists b :: b in before + [branch] && OnBranch(pr, repositoryID, text.trim(b))
    {
      if pr in rows {
        var b :| b in before && OnBranch(pr, repositoryID, text.trim(b));
        assert b in before + [branch];
      } else {
        assert branch in before + [branch];
      }
    }
    forall pr, b | (exists k :: k in cache && cache[k] == pr) && b in before + [branch] && OnBranch(pr, repositoryID, text.trim(b))
      ensures pr in merged
    {
      if b in before {
        assert pr in rows;
      } else {
        assert pr in prs;
        var other :| other in merged && other.index == pr.index;
        var k :| k in cache && cache[k] == pr;
        var m :| m in cache && cache[m] == other;
        assert k == m;
      }
    }
  }

  method SortByIndex(rows: seq<PullRequest>) returns (sorted: seq<PullRequest>)
    ensures forall pr :: pr in sorted <==> pr in rows
    ensures forall i, j :: 0 <= i < j < |sorted| ==> sorted[i].index <= sorted[j].index
  {
    sorted := [];
    for n := 0 to |rows|
      invariant forall pr :: pr in sorted <==> pr in rows[..n]
      invariant forall i, j :: 0 <= i < j < |sorted| ==> sorted[i].index <= sorted[j].index
    {
      var at := 0;
      while at < |sorted| && sorted[at].index <= rows[n].index
        invariant 0 <= at <= |sorted|
        invariant forall j :: 0 <= j < at ==> sorted[j].index <= rows[n].index
      {
        at := at + 1;
      }
      InsertedMembers(sorted, at, rows[n]);
      sorted := sorted[..at] + [rows[n]] + sorted[at..];
      assert rows[..n + 1] == rows[..n] + [rows[n]];
    }
    assert rows[..|rows|] == rows;
  }

  lemma {:induction false} InsertedMembers(s: seq<PullRequest>, at: nat, x: PullRequest)
    requires at <= |s|
    ensures forall pr :: pr in s[..at] + [x] + s[at..] <==> pr in s || pr == x
  {
    assert s == s[..at] + s[at..];
  }

  lemma {:induction false} PrefixStops(text: Text, repositoryID: int, branch: string, prs: seq<PullRequest>, i: nat)
    requires i < |prs| && ValidPrefix(text, repositoryID, branch, prs[..i]) == i
    requires !Valid(Row(text, repositoryID, branch, prs[i]))
    ensures ValidPrefix(text, repositoryID, branch, prs) == i
  {
    if |prs| == i + 1 {
      assert prs[..|prs| - 1] == prs[..i];
    } else {
      assert prs[..|prs| - 1][..i] == prs[..i];
      PrefixStops(text, repositoryID, branch, prs[..|prs| - 1], i);
    }
  }

  /** Publishes group by group; stops at the first that fails, with truthful counts. */
  method PublishGroups(groups: seq<seq<PullRequest>>, fates: nat -> Fate, counts: Counts)
    returns (after: Counts, outcome: Convergence, published: seq<string>)
    requires forall i :: 0 <= i < |groups| ==> groups[i] != []
    requires counts.attempted == 0 && counts.posted == 0 && counts.failed == 0
    ensures var n := PostedPrefix(fates, |groups|);
            && after.posted == n == |published|
            && (forall i :: 0 <= i < n ==> published[i] == groups[i][0].headSHA)
            && outcome != SyncFailed && (outcome == Converged <==> n == |groups|)
            && after.attempted == (if n < |groups| && fates(n) != LostBefore then n + 1 else n)
            && after.failed == (if n < |groups| && (fates(n) == EvaluationFailed || fates(n) == PublicationFailed) then 1 else 0)
            && after.managedBranches == counts.managedBranches && after.openPullRequests == counts.openPullRequests
  {
    after, published := counts, [];
    for i := 0 to |groups|
      invariant PostedPrefix(fates, i) == i && |published| == i
      invariant forall j :: 0 <= j < i ==> published[j] == groups[j][0].headSHA
      invariant after == counts.(attempted := i, posted := i)
    {
      if fates(i) != Posted { StopsAt(fates, i, |groups|); }
      if fates(i) == LostBefore { return after, ClaimLost, published; }
      after := after.(attempted := after.attempted + 1);
      if fates(i) == EvaluationFailed {
        after := after.(failed := after.failed + 1);
        return after, EvaluationError, published;
      }
      if fates(i) == LostAfter { return after, ClaimLost, published; }
      if fates(i) == PublicationFailed {
        after := after.(failed := after.failed + 1);
        return after, PublicationError, published;
      }
      published := published + [groups[i][0].headSHA];
      after := after.(posted := after.posted + 1);
    }
    outcome := Converged;
  }

  lemma {:induction false} StopsAt(fates: nat -> Fate, i: nat, groups: nat)
    requires i < groups && PostedPrefix(fates, i) == i && fates(i) != Posted
    ensures PostedPrefix(fates, groups) == i
  {
    if groups > i + 1 { StopsAt(fates, i, groups - 1); }
  }
}
