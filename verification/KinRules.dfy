/**
 The rules behind the second pass, stated over all regions at once, and the proof that the pass
 enforces exactly these.
 */
module KinRules {
  import opened Common
  import opened KinMemo
  import opened KinScan
  import opened KinValidation

  // ---------- the rules

  /** Each created account can be closed by whoever paid for it. */
  predicate ClosesMatch(rs: seq<Region>) {
    forall i :: 0 <= i < |rs| ==> RegionCloses(rs[i])
  }

  predicate RegionCloses(r: Region) {
    forall k :: 0 <= k < |r.creations| ==> CloseMatches(r.creations[k])
  }

  /** All text memos that name an app name the same one. */
  predicate OneAppId(env: Env, rs: seq<Region>) {
    forall i, j :: 0 <= i < |rs| && 0 <= j < |rs| && AppIdOf(env, rs[i]).Some? && AppIdOf(env, rs[j]).Some? ==>
      AppIdOf(env, rs[i]) == AppIdOf(env, rs[j])
  }

  /** Once a binary memo has a non-zero app index, every later one has the same. */
  predicate IndexesSettle(env: Env, rs: seq<Region>) {
    forall i, j ::
      0 <= i < j < |rs| && HasBinary(env, rs[i]) && HasBinary(env, rs[j]) && IndexOfMemo(env, rs[i]) != 0 ==>
        IndexOfMemo(env, rs[j]) == IndexOfMemo(env, rs[i])
  }

  /** A region that refers to the invoice list has as many transfers as there are invoices. */
  predicate CountsMatch(env: Env, hash: Option<Bits>, count: nat, rs: seq<Region>) {
    forall i :: 0 <= i < |rs| && References(env, hash, rs[i]) ==> |rs[i].transfers| == count
  }

  predicate SomeType(env: Env, rs: seq<Region>, t: int) {
    exists i :: 0 <= i < |rs| && HasType(env, rs[i], t)
  }

  /** Which regions refer to the invoice list. */
  function Referring(env: Env, hash: Option<Bits>, rs: seq<Region>): (marks: seq<bool>)
    ensures |marks| == |rs| && forall i :: 0 <= i < |rs| ==> marks[i] == References(env, hash, rs[i])
  {
    seq(|rs|, i requires 0 <= i < |rs| => References(env, hash, rs[i]))
  }

  predicate NoMark(marks: seq<bool>) {
    forall i :: 0 <= i < |marks| ==> !marks[i]
  }

  predicate OneMark(marks: seq<bool>) {
    exists i :: 0 <= i < |marks| && marks[i] && forall j :: 0 <= j < |marks| && marks[j] ==> j == i
  }

  predicate ExactlyOneReference(env: Env, hash: Option<Bits>, rs: seq<Region>) {
    OneMark(Referring(env, hash, rs))
  }

  // ---------- what the progress means

  lemma ValidAppIdsAreNotEmpty(env: Env, r: Region)
    ensures AppIdOf(env, r).Some? ==> AppIdOf(env, r).value != []
  {
  }

  /** `appId` is empty until some region names an app, and then is that region's app. */
  lemma {:induction false} AppIdMeans(env: Env, hash: Option<Bits>, rs: seq<Region>)
    ensures var p := Progressed(env, hash, rs);
            if p.appId == [] then forall i :: 0 <= i < |rs| ==> AppIdOf(env, rs[i]).None?
            else exists i :: 0 <= i < |rs| && AppIdOf(env, rs[i]) == Some(p.appId)
  {
    if rs != [] {
      var n := |rs| - 1;
      AppIdMeans(env, hash, rs[..n]);
      ValidAppIdsAreNotEmpty(env, rs[n]);
      var p := Progressed(env, hash, rs[..n]);
      if p.appId != [] {
        var i :| 0 <= i < n && AppIdOf(env, rs[..n][i]) == Some(p.appId);
        assert rs[i] == rs[..n][i];
      } else {
        assert forall i :: 0 <= i < n ==> rs[i] == rs[..n][i];
      }
    }
  }

  /** `appIndex` is the first non-zero app index. */
  lemma {:induction false} AppIndexMeans(env: Env, hash: Option<Bits>, rs: seq<Region>)
    ensures var p := Progressed(env, hash, rs);
            if p.appIndex == 0 then forall i :: 0 <= i < |rs| && HasBinary(env, rs[i]) ==> IndexOfMemo(env, rs[i]) == 0
            else exists i :: FirstIndex(env, rs, i, p.appIndex)
  {
    if rs != [] {
      var n := |rs| - 1;
      AppIndexMeans(env, hash, rs[..n]);
      var p := Progressed(env, hash, rs[..n]);
      assert forall i :: 0 <= i < n ==> rs[i] == rs[..n][i];
      if p.appIndex != 0 {
        var i :| FirstIndex(env, rs[..n], i, p.appIndex);
        assert FirstIndex(env, rs, i, p.appIndex);
      } else if HasBinary(env, rs[n]) && IndexOfMemo(env, rs[n]) != 0 {
        assert FirstIndex(env, rs, n, IndexOfMemo(env, rs[n]));
      }
    }
  }

  predicate FirstIndex(env: Env, rs: seq<Region>, i: int, index: bv16) {
    && 0 <= i < |rs| && HasBinary(env, rs[i]) && IndexOfMemo(env, rs[i]) == index
    && forall j :: 0 <= j < i && HasBinary(env, rs[j]) ==> IndexOfMemo(env, rs[j]) == 0
  }

  lemma {:induction false} TypesMean(env: Env, hash: Option<Bits>, rs: seq<Region>)
    ensures var p := Progressed(env, hash, rs);
            && (p.hasEarn <==> SomeType(env, rs, TYPE_EARN))
            && (p.hasSpend <==> SomeType(env, rs, TYPE_SPEND))
            && (p.hasP2P <==> SomeType(env, rs, TYPE_P2P))
  {
    if rs != [] {
      TypesMean(env, hash, rs[..|rs| - 1]);
      TypeSnoc(env, rs, TYPE_EARN);
      TypeSnoc(env, rs, TYPE_SPEND);
      TypeSnoc(env, rs, TYPE_P2P);
    }
  }

  lemma TypeSnoc(env: Env, rs: seq<Region>, t: int)
    requires rs != []
    ensures SomeType(env, rs, t) <==> SomeType(env, rs[..|rs| - 1], t) || HasType(env, rs[|rs| - 1], t)
  {
    var n := |rs| - 1;
    assert forall i :: 0 <= i < n ==> rs[i] == rs[..n][i];
    if SomeType(env, rs[..n], t) {
      var i :| 0 <= i < n && HasType(env, rs[..n][i], t);
      assert HasType(env, rs[i], t);
    }
  }

  lemma UnmarkedSnoc(marks: seq<bool>, all: seq<bool>)
    requires |all| == |marks| + 1 && !all[|marks|] && forall i :: 0 <= i < |marks| ==> all[i] == marks[i]
    ensures OneMark(all) <==> OneMark(marks)
  {
    if OneMark(marks) {
      var i :| 0 <= i < |marks| && marks[i] && forall j :: 0 <= j < |marks| && marks[j] ==> j == i;
      assert all[i];
    }
    if OneMark(all) {
      var i :| 0 <= i < |all| && all[i] && forall j :: 0 <= j < |all| && all[j] ==> j == i;
      assert marks[i];
    }
  }

  lemma MarkSnoc(marks: seq<bool>, b: bool)
    ensures NoMark(marks + [b]) <==> NoMark(marks) && !b
    ensures OneMark(marks + [b]) <==> if b then NoMark(marks) else OneMark(marks)
  {
    var all := marks + [b];
    assert all[|marks|] == b;
    assert forall i :: 0 <= i < |marks| ==> all[i] == marks[i];
    if !b { UnmarkedSnoc(marks, all); }
  }

  lemma {:induction false} ReferencesMean(env: Env, hash: Option<Bits>, rs: seq<Region>)
    ensures Progressed(env, hash, rs).refCount == 0 <==> NoMark(Referring(env, hash, rs))
    ensures Progressed(env, hash, rs).refCount == 1 <==> ExactlyOneReference(env, hash, rs)
  {
    if rs != [] {
      var n := |rs| - 1;
      ReferencesMean(env, hash, rs[..n]);
      var mark := ReferringSnoc(env, hash, rs);
      MarkSnoc(Referring(env, hash, rs[..n]), mark);
    }
  }

  lemma ReferringSnoc(env: Env, hash: Option<Bits>, rs: seq<Region>) returns (mark: bool)
    requires rs != []
    ensures Referring(env, hash, rs) == Referring(env, hash, rs[..|rs| - 1]) + [mark]
    ensures Progressed(env, hash, rs).refCount == Progressed(env, hash, rs[..|rs| - 1]).refCount + if mark then 1 else 0
  {
    var n := |rs| - 1;
    mark := References(env, hash, rs[n]);
    CountStep(env, hash, Progressed(env, hash, rs[..n]), rs[n]);
    var (a, b) := (Referring(env, hash, rs), Referring(env, hash, rs[..n]));
    forall i | 0 <= i < |rs| ensures a[i] == (b + [mark])[i] {
      if i < n { assert rs[..n][i] == rs[i]; }
    }
  }

  lemma CountStep(env: Env, hash: Option<Bits>, p: Progress, r: Region)
    ensures Advance(env, hash, p, r).refCount == p.refCount + if References(env, hash, r) then 1 else 0
  {
  }

  // ---------- the pass enforces the rules

  lemma AppIdStep(env: Env, hash: Option<Bits>, rs: seq<Region>, r: Region)
    requires OneAppId(env, rs)
    ensures var p := Progressed(env, hash, rs);
            OneAppId(env, rs + [r]) <==> (AppIdOf(env, r).Some? && p.appId != [] ==> p.appId == AppIdOf(env, r).value)
  {
    var p := Progressed(env, hash, rs);
    var all := rs + [r];
    AppIdMeans(env, hash, rs);
    assert forall i :: 0 <= i < |rs| ==> all[i] == rs[i];
    if p.appId != [] {
      var i :| 0 <= i < |rs| && AppIdOf(env, rs[i]) == Some(p.appId);
      assert AppIdOf(env, all[i]) == Some(p.appId);
      assert all[|rs|] == r;
    }
  }

  lemma AppIndexStep(env: Env, hash: Option<Bits>, rs: seq<Region>, r: Region)
    requires IndexesSettle(env, rs)
    ensures var p := Progressed(env, hash, rs);
            IndexesSettle(env, rs + [r]) <==>
            (HasBinary(env, r) && p.appIndex != 0 ==> IndexOfMemo(env, r) == p.appIndex)
  {
    var p := Progressed(env, hash, rs);
    var all := rs + [r];
    AppIndexMeans(env, hash, rs);
    assert forall i :: 0 <= i < |rs| ==> all[i] == rs[i];
    assert all[|rs|] == r;
    if p.appIndex != 0 {
      var i :| FirstIndex(env, rs, i, p.appIndex);
      assert all[i] == rs[i];
    }
  }

  /** The pass over the regions complains exactly when one of the four rules is broken. */
  lemma {:induction false} NoComplaintExactly(env: Env, hash: Option<Bits>, count: nat, rs: seq<Region>)
    ensures FirstComplaint(env, hash, count, rs).None? <==>
            ClosesMatch(rs) && OneAppId(env, rs) && IndexesSettle(env, rs) && CountsMatch(env, hash, count, rs)
  {
    if rs != [] {
      var n := |rs| - 1;
      var (init, r) := (rs[..n], rs[n]);
      assert rs == init + [r];
      NoComplaintExactly(env, hash, count, init);
      if FirstComplaint(env, hash, count, init).None? {
        AppIdStep(env, hash, init, r);
        AppIndexStep(env, hash, init, r);
        ComplaintStep(env, hash, count, Progressed(env, hash, init), r);
        RegionRulesStep(env, hash, count, init, r);
      } else {
        RulesOfPrefix(env, hash, count, init, r);
      }
    }
  }

  lemma ComplaintStep(env: Env, hash: Option<Bits>, count: nat, p: Progress, r: Region)
    ensures Complaint(env, hash, count, p, r).None? <==>
            && RegionCloses(r)
            && (AppIdOf(env, r).Some? && p.appId != [] ==> p.appId == AppIdOf(env, r).value)
            && (HasBinary(env, r) && p.appIndex != 0 ==> IndexOfMemo(env, r) == p.appIndex)
            && (References(env, hash, r) ==> |r.transfers| == count)
  {
  }

  lemma RegionRulesStep(env: Env, hash: Option<Bits>, count: nat, rs: seq<Region>, r: Region)
    ensures ClosesMatch(rs + [r]) <==> ClosesMatch(rs) && RegionCloses(r)
    ensures CountsMatch(env, hash, count, rs + [r]) <==>
            CountsMatch(env, hash, count, rs) && (References(env, hash, r) ==> |r.transfers| == count)
  {
    var all := rs + [r];
    assert all[|rs|] == r;
    assert forall i :: 0 <= i < |rs| ==> all[i] == rs[i];
  }

  lemma RulesOfPrefix(env: Env, hash: Option<Bits>, count: nat, rs: seq<Region>, r: Region)
    ensures OneAppId(env, rs + [r]) ==> OneAppId(env, rs)
    ensures IndexesSettle(env, rs + [r]) ==> IndexesSettle(env, rs)
    ensures ClosesMatch(rs + [r]) ==> ClosesMatch(rs)
    ensures CountsMatch(env, hash, count, rs + [r]) ==> CountsMatch(env, hash, count, rs)
  {
    var all := rs + [r];
    assert forall i :: 0 <= i < |rs| ==> all[i] == rs[i];
    RegionRulesStep(env, hash, count, rs, r);
  }

  /** Earns stand beside spends or payments between users. */
  predicate Mixes(env: Env, rs: seq<Region>) {
    SomeType(env, rs, TYPE_EARN) && (SomeType(env, rs, TYPE_SPEND) || SomeType(env, rs, TYPE_P2P))
  }

  /** Everything the second pass demands. */
  predicate Rules(env: Env, il: Option<InvoiceList>, rs: seq<Region>) {
    && (il.Some? ==> il.value.encoding.Some?)
    && ClosesMatch(rs)
    && OneAppId(env, rs)
    && IndexesSettle(env, rs)
    && CountsMatch(env, HashOf(env, il), CountOf(il), rs)
    && !Mixes(env, rs)
    && (il.Some? ==> ExactlyOneReference(env, HashOf(env, il), rs))
  }

  /** The second pass succeeds exactly on regions that follow the rules. */
  lemma ValidatesExactly(env: Env, il: Option<InvoiceList>, rs: seq<Region>)
    ensures ValidationOf(env, il, rs).Ok? <==> Rules(env, il, rs)
  {
    NoComplaintExactly(env, HashOf(env, il), CountOf(il), rs);
    TypesMean(env, HashOf(env, il), rs);
    ReferencesMean(env, HashOf(env, il), rs);
  }

  /** And its result names the one app id and the one non-zero app index there is, if any. */
  lemma ValidatedNames(env: Env, il: Option<InvoiceList>, rs: seq<Region>, i: nat)
    requires ValidationOf(env, il, rs).Ok? && i < |rs|
    ensures var v := ValidationOf(env, il, rs).value;
            && (AppIdOf(env, rs[i]).Some? ==> AppIdOf(env, rs[i]) == Some(v.appId))
            && (HasBinary(env, rs[i]) && IndexOfMemo(env, rs[i]) != 0 ==> IndexOfMemo(env, rs[i]) == v.appIndex)
            && |v.regions| == |rs|
            && v.regions[i] == Filled(env, rs[i])
  {
    ValidatesExactly(env, il, rs);
    var hash := HashOf(env, il);
    AppIdMeans(env, hash, rs);
    AppIndexMeans(env, hash, rs);
    var p := Progressed(env, hash, rs);
    if HasBinary(env, rs[i]) && IndexOfMemo(env, rs[i]) != 0 {
      var k :| FirstIndex(env, rs, k, p.appIndex);
      assert k <= i;
    }
  }

  // ---------- the rules only look at a region's contents

  predicate SameContents(env: Env, r: Region, q: Region) {
    Classify(env, r) == Classify(env, q) && r.creations == q.creations && r.transfers == q.transfers
  }

  predicate AllSame(env: Env, rs: seq<Region>, qs: seq<Region>) {
    |rs| == |qs| && forall i :: 0 <= i < |rs| ==> SameContents(env, rs[i], qs[i])
  }

  lemma SameMemoRules(env: Env, rs: seq<Region>, qs: seq<Region>)
    requires AllSame(env, rs, qs)
    ensures OneAppId(env, rs) <==> OneAppId(env, qs)
    ensures IndexesSettle(env, rs) <==> IndexesSettle(env, qs)
    ensures forall t :: SomeType(env, rs, t) <==> SomeType(env, qs, t)
  {
    forall t ensures SomeType(env, rs, t) <==> SomeType(env, qs, t) {
      if SomeType(env, rs, t) {
        var i :| 0 <= i < |rs| && HasType(env, rs[i], t);
        assert HasType(env, qs[i], t);
      }
      if SomeType(env, qs, t) {
        var i :| 0 <= i < |qs| && HasType(env, qs[i], t);
        assert HasType(env, rs[i], t);
      }
    }
  }

  lemma SameRegionRules(env: Env, hash: Option<Bits>, count: nat, rs: seq<Region>, qs: seq<Region>)
    requires AllSame(env, rs, qs)
    ensures Referring(env, hash, rs) == Referring(env, hash, qs)
    ensures ClosesMatch(rs) <==> ClosesMatch(qs)
    ensures CountsMatch(env, hash, count, rs) <==> CountsMatch(env, hash, count, qs)
  {
    forall i | 0 <= i < |rs|
      ensures References(env, hash, rs[i]) <==> References(env, hash, qs[i])
      ensures RegionCloses(rs[i]) <==> RegionCloses(qs[i])
      ensures |rs[i].transfers| == |qs[i].transfers|
    {
      assert SameContents(env, rs[i], qs[i]);
    }
  }

  lemma SameRules(env: Env, il: Option<InvoiceList>, rs: seq<Region>, qs: seq<Region>)
    requires AllSame(env, rs, qs)
    ensures Rules(env, il, rs) <==> Rules(env, il, qs)
  {
    SameMemoRules(env, rs, qs);
    SameRegionRules(env, HashOf(env, il), CountOf(il), rs, qs);
  }

  // ---------- the documented rule on app indexes

  predicate NamesIndex(env: Env, r: Region) {
    HasBinary(env, r) && IndexOfMemo(env, r) != 0
  }

  /** The documentation's rule: values other than none agree. */
  predicate OneAppIndex(env: Env, rs: seq<Region>) {
    forall i, j ::
      0 <= i < j < |rs| && NamesIndex(env, rs[i]) && NamesIndex(env, rs[j]) ==>
        IndexOfMemo(env, rs[i]) == IndexOfMemo(env, rs[j])
  }

  /** No binary memo without an app index comes after one with an app index. */
  predicate NoneComesFirst(env: Env, rs: seq<Region>) {
    forall i, j ::
      0 <= i < j < |rs| && HasBinary(env, rs[i]) && HasBinary(env, rs[j]) && IndexOfMemo(env, rs[i]) != 0 ==>
        IndexOfMemo(env, rs[j]) != 0
  }

  /** The code's rule is the documented one exactly when none comes first. */
  lemma SettlesExactly(env: Env, rs: seq<Region>)
    ensures IndexesSettle(env, rs) <==> OneAppIndex(env, rs) && NoneComesFirst(env, rs)
  {
    if OneAppIndex(env, rs) && NoneComesFirst(env, rs) {
      forall i, j | 0 <= i < j < |rs| && HasBinary(env, rs[i]) && HasBinary(env, rs[j]) && IndexOfMemo(env, rs[i]) != 0
        ensures IndexOfMemo(env, rs[j]) == IndexOfMemo(env, rs[i])
      {
        assert IndexOfMemo(env, rs[j]) != 0;
      }
    }
  }

  /** A region that holds a binary memo and nothing else. */
  predicate OnlyMemo(env: Env, r: Region) {
    HasBinary(env, r) && r.creations == []
  }

  /**
   Whatever the decoder and whatever the texts: a memo that names an app followed by one that names
   none is refused, although none is documented to be no value. In the other order the pair is
   accepted, unless it mixes earns with other payments.
   */
  lemma OrderMatters(env: Env, named: Region, none: Region)
    requires OnlyMemo(env, named) && IndexOfMemo(env, named) != 0
    requires OnlyMemo(env, none) && IndexOfMemo(env, none) == 0
    ensures OneAppIndex(env, [named, none]) && OneAppIndex(env, [none, named])
    ensures ValidationOf(env, None, [named, none]) == Err(MultipleAppIndexes)
    ensures ValidationOf(env, None, [none, named]).Ok? <==> !Mixes(env, [none, named])
  {
    NamedFirstIsRefused(env, named, none);
    NoneFirstIsAccepted(env, named, none);
  }

  lemma NamedFirstIsRefused(env: Env, named: Region, none: Region)
    requires OnlyMemo(env, named) && IndexOfMemo(env, named) != 0
    requires OnlyMemo(env, none) && IndexOfMemo(env, none) == 0
    ensures ValidationOf(env, None, [named, none]) == Err(MultipleAppIndexes)
  {
    var rs := [named, none];
    assert rs[..1] == [named] && [named][..0] == [];
    assert FirstComplaint(env, None, 0, [named]) == None;
    assert Progressed(env, None, [named]).appIndex == IndexOfMemo(env, named);
    assert FirstComplaint(env, None, 0, rs) == Some(MultipleAppIndexes);
  }

  lemma NoneFirstIsAccepted(env: Env, named: Region, none: Region)
    requires OnlyMemo(env, named) && IndexOfMemo(env, named) != 0
    requires OnlyMemo(env, none) && IndexOfMemo(env, none) == 0
    ensures ValidationOf(env, None, [none, named]).Ok? <==> !Mixes(env, [none, named])
  {
    var rs := [none, named];
    assert rs[0] == none && rs[1] == named;
    ValidatesExactly(env, None, rs);
  }

  // ---------- text memos

  /** `memo` is version 1, then the app id, then nothing or another dash. */
  predicate TextShape(memo: seq<byte>, id: seq<byte>, tail: seq<byte>) {
    memo == ONE + [DASH] + id + tail && DASH !in id && (tail == [] || tail[0] == DASH)
  }

  lemma ShapedParts(memo: seq<byte>, id: seq<byte>, tail: seq<byte>)
    requires TextShape(memo, id, tail)
    ensures var parts := Split(memo, DASH); |parts| > 1 && parts[0] == ONE && parts[1] == id
  {
    assert memo == ONE + ([DASH] + (id + tail));
    SplitTwice(memo, DASH, ONE, id, tail);
  }

  lemma ShapedIsRead(env: Env, memo: seq<byte>, id: seq<byte>, tail: seq<byte>)
    requires IsValidAppId(env, id) && TextShape(memo, id, tail)
    ensures AppIdFromText(env, memo) == Some(id)
  {
    ShapedParts(memo, id, tail);
  }

  lemma ReadIsShaped(env: Env, memo: seq<byte>, id: seq<byte>) returns (tail: seq<byte>)
    requires AppIdFromText(env, memo) == Some(id)
    ensures IsValidAppId(env, id) && TextShape(memo, id, tail)
  {
    var rest := FirstPart(memo, DASH);
    SplitFirst(memo, DASH, ONE, rest);
    assert Split(memo, DASH)[1] == Split(memo, DASH)[1..][0];
    tail := FirstPart(rest[1..], DASH);
    assert rest == [DASH] + (id + tail);
    assert memo == ONE + [DASH] + id + tail;
  }

  /** The app id of a text memo is what stands between the version and the next dash. */
  lemma TextMemoExactly(env: Env, memo: seq<byte>, id: seq<byte>)
    ensures AppIdFromText(env, memo) == Some(id) <==> IsValidAppId(env, id) && exists tail :: TextShape(memo, id, tail)
  {
    if IsValidAppId(env, id) && exists tail :: TextShape(memo, id, tail) {
      var tail :| TextShape(memo, id, tail);
      ShapedIsRead(env, memo, id, tail);
    }
    if AppIdFromText(env, memo) == Some(id) {
      var tail := ReadIsShaped(env, memo, id);
    }
  }
}
