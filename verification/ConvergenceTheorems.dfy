/**
 Convergence end to end: what the cache holds after a synchronisation, that
 grouping loses nothing, and that a successful run publishes exactly the heads
 of the open pull requests on managed branches, each once.
 */
module ConvergenceTheorems {
  import opened Wrappers
  import opened PullRequestCache

  // ---------------------------------------------------------- grouping conserves

  function Flat(groups: seq<seq<PullRequest>>): seq<PullRequest> {
    if groups == [] then [] else Flat(groups[..|groups| - 1]) + groups[|groups| - 1]
  }

  /** The pull requests grouping keeps: those with a head. */
  function Headed(prs: seq<PullRequest>): seq<PullRequest> {
    if prs == [] then []
    else Headed(prs[..|prs| - 1]) + if prs[|prs| - 1].headSHA != "" then [prs[|prs| - 1]] else []
  }

  lemma CountSnoc(s: seq<PullRequest>, x: PullRequest, y: PullRequest)
    ensures multiset(s + [y])[x] == multiset(s)[x] + if x == y then 1 else 0
  {
  }

  lemma {:induction false} WithHeadCounts(prs: seq<PullRequest>, head: string, x: PullRequest)
    ensures multiset(WithHead(prs, head))[x] == if x.headSHA == head then multiset(prs)[x] else 0
  {
    if prs != [] {
      var before, last := prs[..|prs| - 1], prs[|prs| - 1];
      WithHeadCounts(before, head, x);
      assert prs == before + [last];
      CountSnoc(before, x, last);
    }
  }

  lemma {:induction false} HeadedCounts(prs: seq<PullRequest>, x: PullRequest)
    ensures multiset(Headed(prs))[x] == if x.headSHA != "" then multiset(prs)[x] else 0
  {
    if prs != [] {
      var before, last := prs[..|prs| - 1], prs[|prs| - 1];
      HeadedCounts(before, x);
      assert prs == before + [last];
      CountSnoc(before, x, last);
    }
  }

  lemma {:induction false} GroupedSnoc(prs: seq<PullRequest>, heads: seq<string>, head: string)
    ensures Grouped(prs, heads + [head]) == Grouped(prs, heads) + [WithHead(prs, head)]
    ensures Flat(Grouped(prs, heads + [head])) == Flat(Grouped(prs, heads)) + WithHead(prs, head)
  {
    assert (heads + [head])[..|heads|] == heads;
    var g := Grouped(prs, heads) + [WithHead(prs, head)];
    assert g[..|g| - 1] == Grouped(prs, heads);
  }

  lemma {:induction false} FlatCounts(prs: seq<PullRequest>, heads: seq<string>, x: PullRequest)
    requires forall i, j :: 0 <= i < j < |heads| ==> heads[i] != heads[j]
    ensures multiset(Flat(Grouped(prs, heads)))[x] == if x.headSHA in heads then multiset(prs)[x] else 0
  {
    if heads != [] {
      var before, last := heads[..|heads| - 1], heads[|heads| - 1];
      FlatCounts(prs, before, x);
      WithHeadCounts(prs, last, x);
      assert heads == before + [last];
      GroupedSnoc(prs, before, last);
      assert x.headSHA in heads <==> x.headSHA in before || x.headSHA == last;
      assert last !in before;
    }
  }

  /**
   Grouping by head is a partition: distinct heads, every group non-empty and of
   one head, and together exactly the pull requests that have a head.
   */
  lemma {:induction false} GroupingPartitions(prs: seq<PullRequest>)
    ensures var groups := Grouped(prs, Heads(prs));
            && |groups| == |Heads(prs)|
            && (forall i :: 0 <= i < |groups| ==>
                  groups[i] != [] && forall pr :: pr in groups[i] <==> pr in prs && pr.headSHA == Heads(prs)[i])
            && (forall i, j :: 0 <= i < j < |groups| ==> Heads(prs)[i] != Heads(prs)[j])
            && multiset(Flat(groups)) == multiset(Headed(prs))
  {
    var heads := Heads(prs);
    GroupedAt(prs, heads);
    forall i | 0 <= i < |heads|
      ensures Grouped(prs, heads)[i] != []
      ensures forall pr :: pr in Grouped(prs, heads)[i] <==> pr in prs && pr.headSHA == heads[i]
    {
      HeadsMeaning(prs, heads[i]);
      WithHeadMembers(prs, heads[i]);
    }
    HeadsMeaning(prs, "");
    forall x: PullRequest ensures multiset(Flat(Grouped(prs, heads)))[x] == multiset(Headed(prs))[x] {
      FlatCounts(prs, heads, x);
      HeadedCounts(prs, x);
      HeadsMeaning(prs, x.headSHA);
      if x in multiset(prs) { assert x in prs; }
    }
  }

  // ------------------------------------------------------ what a sync leaves

  /** The last listed entry of a number, which is the one that stays cached. */
  function LastListed(prs: seq<PullRequest>, index: int): Option<PullRequest> {
    if prs == [] then None
    else if prs[|prs| - 1].index == index then Some(prs[|prs| - 1])
    else LastListed(prs[..|prs| - 1], index)
  }

  lemma {:induction false} LastListedMeaning(prs: seq<PullRequest>, index: int)
    ensures LastListed(prs, index).Some? <==> index in Indexes(prs)
    ensures LastListed(prs, index).Some? ==> LastListed(prs, index).value in prs && LastListed(prs, index).value.index == index
  {
    if prs != [] {
      var last := |prs| - 1;
      LastListedMeaning(prs[..last], index);
      assert forall i :: 0 <= i < last ==> prs[..last][i] == prs[i];
      if index in Indexes(prs) && prs[last].index != index {
        var i :| 0 <= i < |prs| && prs[i].index == index;
        assert prs[..last][i].index == index;
      }
    }
  }

  ghost predicate Keyed(cache: Cache) { forall k :: k in cache ==> k == (cache[k].repositoryID, cache[k].index) }

  lemma {:induction false} UpsertedAt(text: Text, cache: Cache, repositoryID: int, branch: string, prs: seq<PullRequest>, key: Key)
    requires Keyed(cache)
    ensures var after := Upserted(text, cache, repositoryID, branch, prs);
            && Keyed(after)
            && (if key.0 == repositoryID && LastListed(prs, key.1).Some?
                then key in after && after[key] == Row(text, repositoryID, branch, LastListed(prs, key.1).value)
                else (key in after <==> key in cache) && (key in cache ==> after[key] == cache[key]))
  {
    if prs != [] { UpsertedAt(text, cache, repositoryID, branch, prs[..|prs| - 1], key); }
  }

  /** The library trims fully: trimming again changes nothing. */
  ghost predicate TrimsFully(text: Text) { forall s :: text.trim(text.trim(s)) == text.trim(s) }

  /**
   After a full synchronisation (no branch filter) a pull request of the
   repository is open in the cache exactly when the forge lists it and its last
   entry normalises to open; other repositories are untouched.
   */
  lemma {:induction false} SyncedOpenRows(text: Text, cache: Cache, repositoryID: int, target: string, prs: seq<PullRequest>, key: Key)
    requires TrimsFully(text) && text.trim(target) == "" && Keyed(cache)
    requires Sync(text, cache, repositoryID, target, Some(prs)).1 == Synced
    ensures var after := Sync(text, cache, repositoryID, target, Some(prs)).0;
            && Keyed(after)
            && (key.0 == repositoryID ==>
                  && (key in after && after[key].Open() <==>
                        LastListed(prs, key.1).Some? && Row(text, repositoryID, "", LastListed(prs, key.1).value).Open())
                  && (LastListed(prs, key.1).Some? ==>
                        key in after && after[key] == Row(text, repositoryID, "", LastListed(prs, key.1).value)))
            && (key.0 != repositoryID ==> (key in after <==> key in cache) && (key in cache ==> after[key] == cache[key]))
  {
    assert prs[..|prs|] == prs;
    assert text.trim("") == "" by { assert text.trim(text.trim(target)) == text.trim(target); }
    UpsertedAt(text, cache, repositoryID, "", prs, key);
    LastListedMeaning(prs, key.1);
  }

  function OpenRows(cache: Cache, repositoryID: int): set<PullRequest> {
    set k | k in cache && cache[k].repositoryID == repositoryID && cache[k].Open() :: cache[k]
  }

  function ListedRows(text: Text, repositoryID: int, prs: seq<PullRequest>): set<PullRequest> {
    set i | 0 <= i < |prs| :: Row(text, repositoryID, "", prs[i])
  }

  /** The forge listed only open pull requests, and never two different entries under one number. */
  ghost predicate CleanListing(text: Text, repositoryID: int, prs: seq<PullRequest>) {
    && (forall i :: 0 <= i < |prs| ==> Row(text, repositoryID, "", prs[i]).Open())
    && (forall i, j :: 0 <= i < j < |prs| && prs[i].index == prs[j].index ==>
          Row(text, repositoryID, "", prs[i]) == Row(text, repositoryID, "", prs[j]))
  }

  lemma OpenRowsMember(text: Text, cache: Cache, repositoryID: int, target: string, prs: seq<PullRequest>, row: PullRequest)
    requires TrimsFully(text) && text.trim(target) == "" && Keyed(cache)
    requires Sync(text, cache, repositoryID, target, Some(prs)).1 == Synced
    ensures row in OpenRows(Sync(text, cache, repositoryID, target, Some(prs)).0, repositoryID) <==>
              && row.Open() && row.repositoryID == repositoryID && LastListed(prs, row.index).Some?
              && row == Row(text, repositoryID, "", LastListed(prs, row.index).value)
  {
    SyncedOpenRows(text, cache, repositoryID, target, prs, (repositoryID, row.index));
    var after := Sync(text, cache, repositoryID, target, Some(prs)).0;
    if row in OpenRows(after, repositoryID) {
      var k :| k in after && after[k] == row;
      assert k == (repositoryID, row.index);
    }
  }

  /** The cache's open rows equal the forge list exactly when the listing is clean. */
  lemma CacheEqualsListingIff(text: Text, cache: Cache, repositoryID: int, target: string, prs: seq<PullRequest>)
    requires TrimsFully(text) && text.trim(target) == "" && Keyed(cache)
    requires Sync(text, cache, repositoryID, target, Some(prs)).1 == Synced
    ensures OpenRows(Sync(text, cache, repositoryID, target, Some(prs)).0, repositoryID) == ListedRows(text, repositoryID, prs)
       <==> CleanListing(text, repositoryID, prs)
  {
    var open := OpenRows(Sync(text, cache, repositoryID, target, Some(prs)).0, repositoryID);
    forall row ensures row in open <==>
        && row.Open() && row.repositoryID == repositoryID && LastListed(prs, row.index).Some?
        && row == Row(text, repositoryID, "", LastListed(prs, row.index).value)
    {
      OpenRowsMember(text, cache, repositoryID, target, prs, row);
    }
    forall index ensures LastListed(prs, index).Some? <==> index in Indexes(prs)
                 ensures LastListed(prs, index).Some? ==> LastListed(prs, index).value in prs && LastListed(prs, index).value.index == index
    {
      LastListedMeaning(prs, index);
    }
    if CleanListing(text, repositoryID, prs) {
      CleanListingCached(text, repositoryID, prs, open);
    }
    if open == ListedRows(text, repositoryID, prs) {
      EqualListingIsClean(text, repositoryID, prs, open);
    }
  }

  /** A listing whose pages shifted can repeat a number with another head; the cache then keeps one of the two. */
  lemma {:induction false} RepeatedNumberIsMerged() returns (text: Text, prs: seq<PullRequest>)
    ensures TrimsFully(text) && text.trim("") == "" && Sync(text, map[], 1, "", Some(prs)).1 == Synced
    ensures |prs| == 2 && prs[0].index == prs[1].index && prs[0].headSHA != prs[1].headSHA && prs[0].Open() && prs[1].Open()
    ensures OpenRows(Sync(text, map[], 1, "", Some(prs)).0, 1) != ListedRows(text, 1, prs)
  {
    text := Text(s => s, s => s);
    var one := PullRequest(1, 4, "open", "main", "aaaaaa", "t", "u");
    var two := one.(headSHA := "bbbbbb");
    prs := [one, two];
    assert prs[..1] == [one] && [one][..0] == [] && prs[..2] == prs;
    assert Row(text, 1, "", one) == one && Row(text, 1, "", two) == two && "aaaaaa"[0] != "bbbbbb"[0];
    assert Valid(one) && Valid(two);
    assert ValidPrefix(text, 1, "", [one]) == 1;
    CacheEqualsListingIff(text, map[], 1, "", prs);
  }

  lemma CleanListingCached(text: Text, repositoryID: int, prs: seq<PullRequest>, open: set<PullRequest>)
    requires CleanListing(text, repositoryID, prs)
    requires forall row :: row in open <==>
               && row.Open() && row.repositoryID == repositoryID && LastListed(prs, row.index).Some?
               && row == Row(text, repositoryID, "", LastListed(prs, row.index).value)
    ensures open == ListedRows(text, repositoryID, prs)
  {
    forall row ensures row in open <==> row in ListedRows(text, repositoryID, prs) {
      LastListedMeaning(prs, row.index);
      if row in open {
        var i :| 0 <= i < |prs| && prs[i] == LastListed(prs, row.index).value;
        assert Row(text, repositoryID, "", prs[i]) == row;
      }
      if row in ListedRows(text, repositoryID, prs) {
        var i :| 0 <= i < |prs| && Row(text, repositoryID, "", prs[i]) == row;
        assert prs[i].index == row.index;
        var j :| 0 <= j < |prs| && prs[j] == LastListed(prs, row.index).value;
      }
    }
  }

  lemma {:induction false} EqualListingIsClean(text: Text, repositoryID: int, prs: seq<PullRequest>, open: set<PullRequest>)
    requires open == ListedRows(text, repositoryID, prs)
    requires forall row :: row in open ==>
               && row.Open() && LastListed(prs, row.index).Some?
               && row == Row(text, repositoryID, "", LastListed(prs, row.index).value)
    ensures CleanListing(text, repositoryID, prs)
  {
    forall i | 0 <= i < |prs|
      ensures Row(text, repositoryID, "", prs[i]) in open
    {
    }
  }

  // ------------------------------------------------ a sync among other writers

  /** One committed upsert of the cache table: the synchronisation's own, or a webhook delivery's. */
  datatype Write = Write(row: PullRequest, own: bool)

  function Written(cache: Cache, writes: seq<Write>): Cache {
    if writes == [] then cache
    else
      var row := writes[|writes| - 1].row;
      Written(cache, writes[..|writes| - 1])[(row.repositoryID, row.index) := row]
  }

  function LastRow(writes: seq<Write>, key: Key): Option<PullRequest> {
    if writes == [] then None
    else
      var row := writes[|writes| - 1].row;
      if (row.repositoryID, row.index) == key then Some(row) else LastRow(writes[..|writes| - 1], key)
  }

  /** The rows the synchronisation itself wrote, in order. */
  function OwnRows(writes: seq<Write>): seq<PullRequest> {
    if writes == [] then []
    else
      var before := OwnRows(writes[..|writes| - 1]);
      if writes[|writes| - 1].own then before + [writes[|writes| - 1].row] else before
  }

  function Rows(text: Text, repositoryID: int, prs: seq<PullRequest>): seq<PullRequest> {
    if prs == [] then []
    else Rows(text, repositoryID, prs[..|prs| - 1]) + [Row(text, repositoryID, "", prs[|prs| - 1])]
  }

  /** Every write passed validation, and the synchronisation's own are exactly the listing's, in its order. */
  ghost predicate Syncs(text: Text, repositoryID: int, prs: seq<PullRequest>, during: seq<Write>, later: seq<Write>) {
    && OwnRows(during) == Rows(text, repositoryID, prs)
    && (forall w :: w in during || w in later ==> Valid(w.row))
  }

  /** The cache at the read: upserts, own and others', then the closing, then others' upserts. */
  function AtRead(cache: Cache, repositoryID: int, prs: seq<PullRequest>, during: seq<Write>, later: seq<Write>): Cache {
    Written(AbsentClosed(Written(cache, during), repositoryID, "", Indexes(prs)), later)
  }

  /** The word that counts for one number: a delivery after the closing, else the last upsert if the number is listed. */
  function LastWord(repositoryID: int, prs: seq<PullRequest>, during: seq<Write>, later: seq<Write>, index: int): Option<PullRequest> {
    if LastRow(later, (repositoryID, index)).Some? then LastRow(later, (repositoryID, index))
    else if index in Indexes(prs) then LastRow(during, (repositoryID, index))
    else None
  }

  lemma {:induction false} WrittenAt(cache: Cache, writes: seq<Write>, key: Key)
    requires Keyed(cache)
    ensures Keyed(Written(cache, writes))
    ensures match LastRow(writes, key)
            case Some(row) => key in Written(cache, writes) && Written(cache, writes)[key] == row
            case None => (key in Written(cache, writes) <==> key in cache) && (key in cache ==> Written(cache, writes)[key] == cache[key])
  {
    if writes != [] { WrittenAt(cache, writes[..|writes| - 1], key); }
  }

  lemma {:induction false} LastRowMember(writes: seq<Write>, key: Key)
    ensures LastRow(writes, key).Some? ==>
              && (exists w :: w in writes && w.row == LastRow(writes, key).value)
              && (LastRow(writes, key).value.repositoryID, LastRow(writes, key).value.index) == key
    ensures (exists w :: w in writes && (w.row.repositoryID, w.row.index) == key) ==> LastRow(writes, key).Some?
  {
    if writes != [] {
      var before, last := writes[..|writes| - 1], writes[|writes| - 1];
      LastRowMember(before, key);
      assert writes == before + [last];
      assert forall w :: w in writes <==> w in before || w == last;
    }
  }

  lemma {:induction false} OwnRowsMember(writes: seq<Write>, row: PullRequest)
    ensures row in OwnRows(writes) ==> exists w :: w in writes && w.row == row
  {
    if writes != [] {
      var before, last := writes[..|writes| - 1], writes[|writes| - 1];
      OwnRowsMember(before, row);
      assert writes == before + [last];
      assert last in writes;
      if row in OwnRows(before) {
        var w :| w in before && w.row == row;
        assert w in writes;
      }
    }
  }

  lemma {:induction false} RowsMember(text: Text, repositoryID: int, prs: seq<PullRequest>, i: nat)
    requires i < |prs|
    ensures Row(text, repositoryID, "", prs[i]) in Rows(text, repositoryID, prs)
  {
    if i < |prs| - 1 { RowsMember(text, repositoryID, prs[..|prs| - 1], i); }
  }

  /** A listed number was written at least once. */
  lemma {:induction false} ListedIsWritten(text: Text, repositoryID: int, prs: seq<PullRequest>, during: seq<Write>, later: seq<Write>, index: int)
    requires Syncs(text, repositoryID, prs, during, later) && index in Indexes(prs)
    ensures LastRow(during, (repositoryID, index)).Some?
  {
    var i :| 0 <= i < |prs| && prs[i].index == index;
    RowsMember(text, repositoryID, prs, i);
    OwnRowsMember(during, Row(text, repositoryID, "", prs[i]));
    LastRowMember(during, (repositoryID, index));
  }

  /**
   However webhook deliveries fall between the statements of a full
   synchronisation and before the read, a pull request is open at the read
   exactly when the last word on it is open.
   */
  lemma {:induction false} OpenAtRead(
    text: Text, cache: Cache, repositoryID: int, prs: seq<PullRequest>, during: seq<Write>, later: seq<Write>, index: int)
    requires Keyed(cache) && Syncs(text, repositoryID, prs, during, later)
    ensures var at, word := AtRead(cache, repositoryID, prs, during, later), LastWord(repositoryID, prs, during, later, index);
            && Keyed(at)
            && ((repositoryID, index) in at && at[(repositoryID, index)].Open() <==> word.Some? && word.value.Open())
            && (word.Some? ==> (repositoryID, index) in at && at[(repositoryID, index)] == word.value && Valid(word.value))
  {
    var key := (repositoryID, index);
    WrittenAt(cache, during, key);
    var closed := AbsentClosed(Written(cache, during), repositoryID, "", Indexes(prs));
    WrittenAt(closed, later, key);
    LastRowMember(during, key);
    LastRowMember(later, key);
    if index in Indexes(prs) { ListedIsWritten(text, repositoryID, prs, during, later, index); }
  }

  /** Where no delivery touches a number, the last word is the listing's last entry for it. */
  lemma {:induction false} UntouchedIsListed(
    text: Text, repositoryID: int, prs: seq<PullRequest>, during: seq<Write>, later: seq<Write>, index: int)
    requires Syncs(text, repositoryID, prs, during, later)
    requires forall w :: w in during && (w.row.repositoryID, w.row.index) == (repositoryID, index) ==> w.own
    requires forall w :: w in later ==> (w.row.repositoryID, w.row.index) != (repositoryID, index)
    ensures LastWord(repositoryID, prs, during, later, index)
         == match LastListed(prs, index) case Some(pr) => Some(Row(text, repositoryID, "", pr)) case None => None
  {
    LastRowMember(later, (repositoryID, index));
    LastOwn(text, repositoryID, prs, during, index);
    LastListedMeaning(prs, index);
  }

  lemma {:induction false} LastOwn(text: Text, repositoryID: int, prs: seq<PullRequest>, writes: seq<Write>, index: int)
    requires OwnRows(writes) == Rows(text, repositoryID, prs)
    requires forall w :: w in writes && (w.row.repositoryID, w.row.index) == (repositoryID, index) ==> w.own
    ensures LastRow(writes, (repositoryID, index))
         == match LastListed(prs, index) case Some(pr) => Some(Row(text, repositoryID, "", pr)) case None => None
    decreases |writes|
  {
    if writes == [] {
      assert prs == [];
    } else {
      var before, last := writes[..|writes| - 1], writes[|writes| - 1];
      assert last in writes;
      if last.own {
        var n := |prs| - 1;
        var rows := Rows(text, repositoryID, prs);
        assert OwnRows(before) == rows[..|rows| - 1] == Rows(text, repositoryID, prs[..n]);
        assert last.row == rows[|rows| - 1];
        LastOwn(text, repositoryID, prs[..n], before, index);
      } else {
        LastOwn(text, repositoryID, prs, before, index);
      }
    }
  }

  /** The synchronisation's own upserts, with none in between. */
  function OwnWrites(text: Text, repositoryID: int, prs: seq<PullRequest>): seq<Write> {
    if prs == [] then []
    else OwnWrites(text, repositoryID, prs[..|prs| - 1]) + [Write(Row(text, repositoryID, "", prs[|prs| - 1]), true)]
  }

  lemma {:induction false} OwnWritesAlone(text: Text, repositoryID: int, prs: seq<PullRequest>)
    ensures OwnRows(OwnWrites(text, repositoryID, prs)) == Rows(text, repositoryID, prs)
    ensures forall w :: w in OwnWrites(text, repositoryID, prs) ==> w.own
  {
    if prs != [] {
      OwnWritesAlone(text, repositoryID, prs[..|prs| - 1]);
      var own := OwnWrites(text, repositoryID, prs);
      assert own[..|own| - 1] == OwnWrites(text, repositoryID, prs[..|prs| - 1]);
    }
  }

  lemma {:induction false} OwnWritesValid(text: Text, repositoryID: int, prs: seq<PullRequest>)
    requires ValidPrefix(text, repositoryID, "", prs) == |prs|
    ensures forall w :: w in OwnWrites(text, repositoryID, prs) ==> Valid(w.row)
  {
    if prs != [] { OwnWritesValid(text, repositoryID, prs[..|prs| - 1]); }
  }

  lemma {:induction false} WrittenSnoc(cache: Cache, writes: seq<Write>, w: Write)
    ensures Written(cache, writes + [w]) == Written(cache, writes)[(w.row.repositoryID, w.row.index) := w.row]
  {
    assert (writes + [w])[..|writes|] == writes;
  }

  lemma {:induction false} OwnWritesUpsert(text: Text, cache: Cache, repositoryID: int, prs: seq<PullRequest>)
    ensures Written(cache, OwnWrites(text, repositoryID, prs)) == Upserted(text, cache, repositoryID, "", prs)
  {
    if prs != [] {
      var last := |prs| - 1;
      OwnWritesUpsert(text, cache, repositoryID, prs[..last]);
      WrittenSnoc(cache, OwnWrites(text, repositoryID, prs[..last]), Write(Row(text, repositoryID, "", prs[last]), true));
    }
  }

  /** A synchronisation that nobody interrupts is the case without other writes. */
  lemma {:induction false} SyncIsAtRead(text: Text, cache: Cache, repositoryID: int, prs: seq<PullRequest>, later: seq<Write>)
    requires text.trim("") == "" && Sync(text, cache, repositoryID, "", Some(prs)).1 == Synced
    requires forall w :: w in later ==> Valid(w.row)
    ensures Syncs(text, repositoryID, prs, OwnWrites(text, repositoryID, prs), later)
    ensures Written(Sync(text, cache, repositoryID, "", Some(prs)).0, later)
         == AtRead(cache, repositoryID, prs, OwnWrites(text, repositoryID, prs), later)
  {
    assert prs[..|prs|] == prs;
    OwnWritesAlone(text, repositoryID, prs);
    OwnWritesUpsert(text, cache, repositoryID, prs);
    OwnWritesValid(text, repositoryID, prs);
  }

  /** The upserts of webhook deliveries: one row each, none for a rejected pull request. */
  function Delivered(text: Text, prs: seq<PullRequest>): seq<Write> {
    if prs == [] then []
    else
      var row := Normalized(text, prs[|prs| - 1]);
      var before := Delivered(text, prs[..|prs| - 1]);
      if Valid(row) then before + [Write(row, false)] else before
  }

  lemma {:induction false} DeliveredSnoc(text: Text, prs: seq<PullRequest>, pr: PullRequest)
    ensures Delivered(text, prs + [pr])
         == if Valid(Normalized(text, pr)) then Delivered(text, prs) + [Write(Normalized(text, pr), false)] else Delivered(text, prs)
  {
    assert (prs + [pr])[..|prs|] == prs;
  }

  lemma {:induction false} DeliveredValid(text: Text, prs: seq<PullRequest>)
    ensures forall w :: w in Delivered(text, prs) ==> Valid(w.row) && !w.own
  {
    if prs != [] { DeliveredValid(text, prs[..|prs| - 1]); }
  }

  // ------------------------------------------------------- a whole convergence

  /** The heads a convergence must publish: of pull requests whose last word is open on a managed branch. */
  ghost predicate MustPublish(
    text: Text, repositoryID: int, branches: seq<string>, prs: seq<PullRequest>, during: seq<Write>, later: seq<Write>, head: string)
  {
    exists index, b ::
      && LastWord(repositoryID, prs, during, later, index).Some? && b in branches
      && OnBranch(LastWord(repositoryID, prs, during, later, index).value, repositoryID, text.trim(b))
      && LastWord(repositoryID, prs, during, later, index).value.headSHA == head
  }

  /** The same from the listing alone. */
  ghost predicate ListedHead(text: Text, repositoryID: int, branches: seq<string>, prs: seq<PullRequest>, head: string) {
    exists index, b ::
      && LastListed(prs, index).Some? && b in branches
      && OnBranch(Row(text, repositoryID, "", LastListed(prs, index).value), repositoryID, text.trim(b))
      && Row(text, repositoryID, "", LastListed(prs, index).value).headSHA == head
  }

  class Reconciler {
    const cacher: Cacher

    constructor (cacher: Cacher)
      ensures this.cacher == cacher
    {
      this.cacher := cacher;
    }

    /** Groups the open pull requests by head and publishes once per group. */
    method PublishOpen(open: seq<PullRequest>, fates: nat -> Fate, before: Counts)
      returns (counts: Counts, outcome: Convergence, published: seq<string>)
      requires before.attempted == 0 && before.posted == 0 && before.failed == 0
      ensures outcome != SyncFailed && PublishedInOrder(open, before, counts, outcome == Converged, published)
    {
      var groups := PullRequestsByHead(open);
      GroupingPartitions(open);
      counts, outcome, published := PublishGroups(groups, fates, before);
      FirstHeads(open, published);
    }

    /** Webhook deliveries upsert what they were sent, in commit order. */
    method Deliver(prs: seq<PullRequest>)
      modifies cacher
      ensures cacher.cache == Written(old(cacher.cache), Delivered(cacher.text, prs))
    {
      for i := 0 to |prs|
        invariant cacher.cache == Written(old(cacher.cache), Delivered(cacher.text, prs[..i]))
      {
        assert prs[..i + 1] == prs[..i] + [prs[i]];
        DeliveredSnoc(cacher.text, prs[..i], prs[i]);
        WrittenSnoc(old(cacher.cache), Delivered(cacher.text, prs[..i]), Write(Normalized(cacher.text, prs[i]), false));
        var _ := cacher.Upsert(prs[i]);
      }
      assert prs[..|prs|] == prs;
    }

    /**
     One run for a repository with a positive id. `deliveries` commit between the
     synchronisation and the read; `fates` says what meets each group in turn.
     */
    method ReconcileCurrentPolicy(
      repositoryID: int, branches: seq<string>, listing: Option<seq<PullRequest>>, deliveries: seq<PullRequest>, fates: nat -> Fate)
      returns (counts: Counts, outcome: Convergence, published: seq<string>, ghost open: seq<PullRequest>)
      requires Keyed(cacher.cache) && TrimsFully(cacher.text) && cacher.text.trim("") == ""
      modifies cacher
      ensures var synced := Sync(cacher.text, old(cacher.cache), repositoryID, "", listing);
              cacher.cache == if synced.1 == Synced then Written(synced.0, Delivered(cacher.text, deliveries)) else synced.0
      ensures outcome != SyncFailed ==>
                && Sync(cacher.text, old(cacher.cache), repositoryID, "", listing).1 == Synced
                && IsManagedOpen(cacher.text, cacher.cache, repositoryID, branches, open)
                && PublishedInOrder(open, Counts(|branches|, |open|, 0, 0, 0), counts, outcome == Converged, published)
      ensures outcome == SyncFailed ==> published == [] && counts.attempted == 0
    {
      counts, published, open := Counts(0, 0, 0, 0, 0), [], [];
      var synced := cacher.SyncRepository(repositoryID, "", listing);
      if synced != Synced { return counts, SyncFailed, [], []; }
      SyncKeepsKeys(cacher.text, old(cacher.cache), repositoryID, listing.value);
      WrittenAt(cacher.cache, Delivered(cacher.text, deliveries), (0, 0));
      Deliver(deliveries);
      var managed := cacher.OpenManagedBranchPullRequests(repositoryID, branches);
      if managed.None? { return counts, SyncFailed, [], []; }
      open := managed.value;
      counts := counts.(managedBranches := |branches|, openPullRequests := |managed.value|);
      counts, outcome, published := PublishOpen(managed.value, fates, counts);
    }
  }

  /** A prefix of the heads was published, one attempt at most went further, and a converged run published all. */
  ghost predicate PublishedInOrder(
    open: seq<PullRequest>, before: Counts, counts: Counts, converged: bool, published: seq<string>)
  {
    && counts.openPullRequests == before.openPullRequests && counts.managedBranches == before.managedBranches
    && counts.posted == |published| && published <= Heads(open)
    && (converged <==> published == Heads(open))
    && (converged ==> counts.attempted == counts.posted == |Heads(open)| && counts.failed == 0)
    && (!converged ==> counts.posted <= counts.attempted <= counts.posted + 1)
  }

  lemma SyncKeepsKeys(text: Text, cache: Cache, repositoryID: int, prs: seq<PullRequest>)
    requires Keyed(cache) && Sync(text, cache, repositoryID, "", Some(prs)).1 == Synced
    ensures Keyed(Sync(text, cache, repositoryID, "", Some(prs)).0)
  {
    assert prs[..|prs|] == prs;
    UpsertedAt(text, cache, repositoryID, text.trim(""), prs, (0, 0));
  }

  lemma {:induction false} FirstHeads(open: seq<PullRequest>, published: seq<string>)
    requires |published| <= |Heads(open)| && |Grouped(open, Heads(open))| == |Heads(open)|
    requires forall i :: 0 <= i < |Heads(open)| ==>
               Grouped(open, Heads(open))[i] != []
               && forall pr :: pr in Grouped(open, Heads(open))[i] <==> pr in open && pr.headSHA == Heads(open)[i]
    requires forall i :: 0 <= i < |published| ==> published[i] == Grouped(open, Heads(open))[i][0].headSHA
    ensures published <= Heads(open)
    ensures |published| == |Heads(open)| ==> published == Heads(open)
  {
    forall i | 0 <= i < |published| ensures published[i] == Heads(open)[i] {
      assert Grouped(open, Heads(open))[i][0] in Grouped(open, Heads(open))[i];
    }
  }

  /**
   Whatever deliveries fall between the statements of the synchronisation and
   before the read, a converged run published exactly the heads of the pull
   requests whose last word is open on a managed branch, each once.
   */
  lemma {:induction false} ConvergedPublishesOpenAtRead(
    text: Text, cache: Cache, repositoryID: int, branches: seq<string>, prs: seq<PullRequest>, during: seq<Write>, later: seq<Write>,
    open: seq<PullRequest>, head: string)
    requires Keyed(cache) && Syncs(text, repositoryID, prs, during, later)
    requires IsManagedOpen(text, AtRead(cache, repositoryID, prs, during, later), repositoryID, branches, open)
    ensures head in Heads(open) <==> MustPublish(text, repositoryID, branches, prs, during, later, head)
    ensures forall i, j :: 0 <= i < j < |Heads(open)| ==> Heads(open)[i] != Heads(open)[j]
  {
    var at := AtRead(cache, repositoryID, prs, during, later);
    HeadsMeaning(open, head);
    if head in Heads(open) {
      var pr :| pr in open && pr.headSHA == head;
      var k :| k in at && at[k] == pr;
      var b :| b in branches && OnBranch(pr, repositoryID, text.trim(b));
      OpenAtRead(text, cache, repositoryID, prs, during, later, pr.index);
      assert LastWord(repositoryID, prs, during, later, pr.index) == Some(pr);
    }
    if MustPublish(text, repositoryID, branches, prs, during, later, head) {
      var index, b :| LastWord(repositoryID, prs, during, later, index).Some? && b in branches
        && OnBranch(LastWord(repositoryID, prs, during, later, index).value, repositoryID, text.trim(b))
        && LastWord(repositoryID, prs, during, later, index).value.headSHA == head;
      OpenAtRead(text, cache, repositoryID, prs, during, later, index);
      assert at[(repositoryID, index)] in open;
    }
  }

  /** So where nobody else writes, exactly the heads of the listed, open pull requests on managed branches, each once. */
  lemma {:induction false} ConvergedPublishesExactly(
    text: Text, cache: Cache, repositoryID: int, branches: seq<string>, prs: seq<PullRequest>, open: seq<PullRequest>, head: string)
    requires Keyed(cache) && text.trim("") == "" && Sync(text, cache, repositoryID, "", Some(prs)).1 == Synced
    requires IsManagedOpen(text, Sync(text, cache, repositoryID, "", Some(prs)).0, repositoryID, branches, open)
    ensures head in Heads(open) <==> ListedHead(text, repositoryID, branches, prs, head)
    ensures forall i, j :: 0 <= i < j < |Heads(open)| ==> Heads(open)[i] != Heads(open)[j]
  {
    var own := OwnWrites(text, repositoryID, prs);
    SyncIsAtRead(text, cache, repositoryID, prs, []);
    OwnWritesAlone(text, repositoryID, prs);
    ConvergedPublishesOpenAtRead(text, cache, repositoryID, branches, prs, own, [], open, head);
    forall index
      ensures LastWord(repositoryID, prs, own, [], index)
           == match LastListed(prs, index) case Some(pr) => Some(Row(text, repositoryID, "", pr)) case None => None
    {
      UntouchedIsListed(text, repositoryID, prs, own, [], index);
    }
    if MustPublish(text, repositoryID, branches, prs, own, [], head) {
      var index, b :| LastWord(repositoryID, prs, own, [], index).Some? && b in branches
        && OnBranch(LastWord(repositoryID, prs, own, [], index).value, repositoryID, text.trim(b))
        && LastWord(repositoryID, prs, own, [], index).value.headSHA == head;
      assert LastListed(prs, index).Some?;
    }
    if ListedHead(text, repositoryID, branches, prs, head) {
      var index, b :| LastListed(prs, index).Some? && b in branches
        && OnBranch(Row(text, repositoryID, "", LastListed(prs, index).value), repositoryID, text.trim(b))
        && Row(text, repositoryID, "", LastListed(prs, index).value).headSHA == head;
      assert LastWord(repositoryID, prs, own, [], index).Some?;
    }
  }

  /** What one whole run reads and publishes, with deliveries between its synchronisation and its read. */
  lemma {:induction false} RunPublishesOpenAtRead(
    text: Text, cache: Cache, repositoryID: int, branches: seq<string>, prs: seq<PullRequest>, deliveries: seq<PullRequest>,
    open: seq<PullRequest>, head: string)
    requires Keyed(cache) && text.trim("") == "" && Sync(text, cache, repositoryID, "", Some(prs)).1 == Synced
    requires IsManagedOpen(text, Written(Sync(text, cache, repositoryID, "", Some(prs)).0, Delivered(text, deliveries)),
                           repositoryID, branches, open)
    ensures head in Heads(open) <==>
              MustPublish(text, repositoryID, branches, prs, OwnWrites(text, repositoryID, prs), Delivered(text, deliveries), head)
  {
    DeliveredValid(text, deliveries);
    SyncIsAtRead(text, cache, repositoryID, prs, Delivered(text, deliveries));
    ConvergedPublishesOpenAtRead(text, cache, repositoryID, branches, prs, OwnWrites(text, repositoryID, prs),
                                 Delivered(text, deliveries), open, head);
  }
}
