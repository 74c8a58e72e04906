/** Deleting the ordinary invoices (automation/delete_normal_keep_beverage.py,
    `main`): every `.xlsx` workbook the classifier does not recognise as
    beverage-only is deleted, in sorted order, stopping at the first file
    that cannot be deleted. */
module Cleanup {
  import opened Wrappers
  import opened PyStr
  import opened TaxFiles
  import opened Classifier

  /** The names whose verdict is `keep`, in their order. */
  function Verdict(dir: map<string, TaxFile>, names: seq<string>, keep: bool): (r: seq<string>)
    requires forall i :: 0 <= i < |names| ==> names[i] in dir
    ensures |r| <= |names|
  {
    if names == [] then []
    else
      var init := Verdict(dir, names[..|names| - 1], keep);
      var n := names[|names| - 1];
      if Classify(dir[n]).isBeverage == keep then init + [n] else init
  }

  /** The position of the first name that cannot be deleted, or the length. */
  function FirstFailure(order: seq<string>, undeletable: set<string>): (r: nat)
    ensures r <= |order|
    ensures forall k :: 0 <= k < r ==> order[k] !in undeletable
    ensures r < |order| ==> order[r] in undeletable
  {
    if order == [] || order[0] in undeletable then 0
    else 1 + FirstFailure(order[1..], undeletable)
  }

  /** The directory once the given names are deleted. */
  function RemoveAll(dir: map<string, TaxFile>, names: seq<string>): map<string, TaxFile> {
    if names == [] then dir else RemoveAll(dir, names[..|names| - 1]) - {names[|names| - 1]}
  }

  /** `main()` of the cleanup script. The directory is read as `listing`
      enumerates it; `undeletable` are the names whose `unlink` raises.
      Returns the exit code, the two lists and the directory afterwards. */
  method DeleteNormalKeepBeverage(taxDir: Option<map<string, TaxFile>>, listing: seq<string>, undeletable: set<string>)
      returns (code: int, toKeep: seq<string>, toDelete: seq<string>, after: Option<map<string, TaxFile>>)
    requires taxDir.Some? ==> Enumerates(listing, taxDir.value)
    ensures taxDir.None? ==> code == 1 && toKeep == [] && toDelete == [] && after == None
    ensures taxDir.Some? ==>
      var dir := taxDir.value;
      var all := Matching(listing, false);
      (forall i :: 0 <= i < |all| ==> all[i] in dir)
      && toKeep == Verdict(dir, all, true) && toDelete == Verdict(dir, all, false)
      && var order := SortStrings(toDelete);
         var j := FirstFailure(order, undeletable);
         after == Some(RemoveAll(dir, order[..j]))
         && code == (if j == |order| then 0 else 1)
  {
    if taxDir.None? {
      return 1, [], [], None;
    }
    var dir := taxDir.value;
    var all := Matching(listing, false);
    MatchingInDir(dir, listing);
    toKeep, toDelete := PartitionFiles(dir, all);
    if toDelete == [] {
      assert SortStrings(toDelete) == [];
      assert RemoveAll(dir, SortStrings(toDelete)[..0]) == dir;
      return 0, toKeep, toDelete, taxDir;
    }
    var d;
    code, d := DeleteInOrder(dir, SortStrings(toDelete), undeletable);
    after := Some(d);
  }

  /** The loop that sorts the `.xlsx` files into `to_keep` and `to_delete`. */
  method PartitionFiles(dir: map<string, TaxFile>, all: seq<string>) returns (toKeep: seq<string>, toDelete: seq<string>)
    requires forall i :: 0 <= i < |all| ==> all[i] in dir
    ensures toKeep == Verdict(dir, all, true) && toDelete == Verdict(dir, all, false)
  {
    toKeep, toDelete := [], [];
    var i := 0;
    while i < |all|
      invariant 0 <= i <= |all|
      invariant toKeep == Verdict(dir, all[..i], true)
      invariant toDelete == Verdict(dir, all[..i], false)
    {
      var isBeverage, _ := IsBeverageOnlyInvoice(dir[all[i]]);
      VerdictSnoc(dir, all, i, true);
      VerdictSnoc(dir, all, i, false);
      if isBeverage {
        toKeep := toKeep + [all[i]];
      } else {
        toDelete := toDelete + [all[i]];
      }
      i := i + 1;
    }
    assert all[..|all|] == all;
  }

  /** The loop over `sorted(to_delete)`: each file is unlinked in turn, and
      the first that cannot be ends the run with exit code 1. */
  method DeleteInOrder(dir: map<string, TaxFile>, order: seq<string>, undeletable: set<string>)
      returns (code: int, after: map<string, TaxFile>)
    ensures var j := FirstFailure(order, undeletable);
      after == RemoveAll(dir, order[..j]) && code == (if j == |order| then 0 else 1)
  {
    after := dir;
    var k := 0;
    while k < |order|
      invariant 0 <= k <= FirstFailure(order, undeletable)
      invariant after == RemoveAll(dir, order[..k])
    {
      if order[k] in undeletable {
        assert k == FirstFailure(order, undeletable);
        return 1, after;
      }
      assert order[..k + 1][..k] == order[..k];
      after := after - {order[k]};
      k := k + 1;
    }
    assert k == FirstFailure(order, undeletable) == |order|;
    return 0, after;
  }

  // ---------------------------------------------------------------------
  // The partition

  lemma MatchingInDir(dir: map<string, TaxFile>, listing: seq<string>)
    requires Enumerates(listing, dir)
    ensures forall i :: 0 <= i < |Matching(listing, false)| ==> Matching(listing, false)[i] in dir
  {
    var all := Matching(listing, false);
    forall i | 0 <= i < |all| ensures all[i] in dir {
      MatchingMembers(listing, false, all[i]);
    }
  }

  lemma VerdictSnoc(dir: map<string, TaxFile>, names: seq<string>, k: int, keep: bool)
    requires forall i :: 0 <= i < |names| ==> names[i] in dir
    requires 0 <= k < |names|
    ensures Verdict(dir, names[..k + 1], keep)
         == Verdict(dir, names[..k], keep)
            + (if Classify(dir[names[k]]).isBeverage == keep then [names[k]] else [])
  {
    assert names[..k + 1][..k] == names[..k];
  }

  /** A name lands in the list of its own verdict. */
  lemma {:induction false} VerdictMembers(dir: map<string, TaxFile>, names: seq<string>, keep: bool, n: string)
    requires forall i :: 0 <= i < |names| ==> names[i] in dir
    ensures n in Verdict(dir, names, keep) <==> n in names && Classify(dir[n]).isBeverage == keep
    decreases |names|
  {
    if names != [] {
      var init := names[..|names| - 1];
      VerdictMembers(dir, init, keep, n);
      assert names == init + [names[|names| - 1]];
    }
  }

  /** Every name goes to exactly one of the two lists. */
  lemma {:induction false} PartitionIsPermutation(dir: map<string, TaxFile>, names: seq<string>)
    requires forall i :: 0 <= i < |names| ==> names[i] in dir
    ensures multiset(Verdict(dir, names, true)) + multiset(Verdict(dir, names, false)) == multiset(names)
    decreases |names|
  {
    if names != [] {
      var init := names[..|names| - 1];
      PartitionIsPermutation(dir, init);
      assert names == init + [names[|names| - 1]];
    }
  }

  /** A verdict list of names without repeats has no repeats. */
  lemma {:induction false} VerdictDistinct(dir: map<string, TaxFile>, names: seq<string>, keep: bool)
    requires forall i :: 0 <= i < |names| ==> names[i] in dir
    requires forall i, j :: 0 <= i < j < |names| ==> names[i] != names[j]
    ensures var r := Verdict(dir, names, keep);
      forall i, j :: 0 <= i < j < |r| ==> r[i] != r[j]
    decreases |names|
  {
    if names != [] {
      var init := names[..|names| - 1];
      var n := names[|names| - 1];
      VerdictDistinct(dir, init, keep);
      VerdictMembers(dir, init, keep, n);
      assert n !in init;
    }
  }

  /** The order the cleanup deletes in, `sorted(to_delete)`, names each file
      once, so the failure lemma below applies to it. */
  lemma DeleteOrderDistinct(dir: map<string, TaxFile>, listing: seq<string>)
    requires Enumerates(listing, dir)
    ensures forall i :: 0 <= i < |Matching(listing, false)| ==> Matching(listing, false)[i] in dir
    ensures var order := SortStrings(Verdict(dir, Matching(listing, false), false));
      forall i, j :: 0 <= i < j < |order| ==> order[i] != order[j]
  {
    MatchingInDir(dir, listing);
    MatchingDistinct(listing, false);
    assert forall i, j :: 0 <= i < j < |Matching(listing, false)| ==>
      Matching(listing, false)[i] != Matching(listing, false)[j];
    VerdictDistinct(dir, Matching(listing, false), false);
    assert forall i, j :: 0 <= i < j < |Verdict(dir, Matching(listing, false), false)| ==>
      Verdict(dir, Matching(listing, false), false)[i] != Verdict(dir, Matching(listing, false), false)[j];
    SortedDistinct(Verdict(dir, Matching(listing, false), false));
  }

  // ---------------------------------------------------------------------
  // The directory afterwards

  lemma {:induction false} RemoveAllMembers(dir: map<string, TaxFile>, names: seq<string>, n: string)
    ensures n in RemoveAll(dir, names) <==> n in dir && n !in names
    ensures n in RemoveAll(dir, names) ==> RemoveAll(dir, names)[n] == dir[n]
    decreases |names|
  {
    if names != [] {
      var init := names[..|names| - 1];
      RemoveAllMembers(dir, init, n);
      assert names == init + [names[|names| - 1]];
    }
  }

  /** When every deletion succeeds, what remains is exactly the files that
      are not `.xlsx` and the beverage-only workbooks, with their contents. */
  lemma CleanupOutcome(dir: map<string, TaxFile>, listing: seq<string>, all: seq<string>, n: string)
    requires Enumerates(listing, dir) && all == Matching(listing, false)
    requires forall i :: 0 <= i < |all| ==> all[i] in dir
    ensures var rest := RemoveAll(dir, SortStrings(Verdict(dir, all, false)));
      (n in rest <==> n in dir && (!IsXlsx(n) || Classify(dir[n]).isBeverage))
      && (n in rest ==> rest[n] == dir[n])
  {
    var del := Verdict(dir, all, false);
    var order := SortStrings(del);
    RemoveAllMembers(dir, order, n);
    assert n in order <==> n in del by {
      assert n in order <==> n in multiset(order);
      assert n in del <==> n in multiset(del);
    }
    VerdictMembers(dir, all, false, n);
    MatchingMembers(listing, false, n);
  }

  /** A kept workbook is never deleted, whatever fails. */
  lemma KeptFilesSurvive(dir: map<string, TaxFile>, names: seq<string>, j: nat, n: string)
    requires forall i :: 0 <= i < |names| ==> names[i] in dir
    requires j <= |SortStrings(Verdict(dir, names, false))|
    requires n in Verdict(dir, names, true)
    ensures n in RemoveAll(dir, SortStrings(Verdict(dir, names, false))[..j])
  {
    var del := Verdict(dir, names, false);
    var order := SortStrings(del);
    VerdictMembers(dir, names, true, n);
    VerdictMembers(dir, names, false, n);
    assert n !in multiset(del);
    assert n !in order;
    assert forall a :: 0 <= a < j ==> order[..j][a] == order[a];
    RemoveAllMembers(dir, order[..j], n);
  }

  /** A failed deletion leaves the failing file and every later one in place. */
  lemma FailureLeavesRest(dir: map<string, TaxFile>, order: seq<string>, undeletable: set<string>, k: int)
    requires forall a, b :: 0 <= a < b < |order| ==> order[a] != order[b]
    requires FirstFailure(order, undeletable) <= k < |order| && order[k] in dir
    ensures order[k] in RemoveAll(dir, order[..FirstFailure(order, undeletable)])
  {
    var j := FirstFailure(order, undeletable);
    assert forall a :: 0 <= a < j ==> order[..j][a] != order[k];
    RemoveAllMembers(dir, order[..j], order[k]);
  }
}
