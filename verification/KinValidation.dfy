/**
 The second pass of `ParseTransaction` in `kin/transaction.go`: close authorities, app ids and
 indexes, invoices and the mixing of payment types, across all regions.
 */
module KinValidation {
  import opened Common
  import opened TokenProgram
  import opened KinMemo
  import opened KinScan

  // ---------- the outside world

  /** Library code the parser calls: base64, SHA-224 and the test that all characters are alphanumeric. */
  datatype Env = Env(
    base64: seq<byte> -> Option<Bits>,
    sha224: seq<byte> -> Bits,
    alphanumeric: seq<byte> -> bool)

  /** An invoice list: its encoding, if it has one, and how many invoices it holds. */
  datatype InvoiceList = InvoiceList(encoding: Option<seq<byte>>, count: nat)

  // ---------- memos

  const DASH: byte := 45

  const ONE: seq<byte> := [49]

  predicate IsValidAppId(env: Env, id: seq<byte>) {
    3 <= |id| <= 4 && env.alphanumeric(id)
  }

  /** `AppIDFromTextMemo`. */
  function AppIdFromText(env: Env, memo: seq<byte>): Option<seq<byte>> {
    var parts := Split(memo, DASH);
    if |parts| < 2 then None
    else if parts[0] != ONE then None
    else if !IsValidAppId(env, parts[1]) then None
    else Some(parts[1])
  }

  /** `copy` of decoded bytes into a zeroed memo. */
  function FitMemo(b: Bits): Memo {
    if |b| >= 32 then b[..32] else b + seq(32 - |b|, _ => 0)
  }

  /** `MemoFromBase64String`, not strict. */
  function MemoFromBase64(env: Env, data: seq<byte>): Option<Memo> {
    match env.base64(data)
    case None => None
    case Some(b) => if IsValidMemo(FitMemo(b)) then Some(FitMemo(b)) else None
  }

  /** What the memo of a region turns out to be. */
  datatype Found = Nothing | Text(appId: Option<seq<byte>>) | Binary(memo: Memo)

  function Classify(env: Env, r: Region): Found {
    if |r.memoData| == 0 then Nothing
    else
      match MemoFromBase64(env, r.memoData)
      case Some(m) => Binary(m)
      case None => Text(AppIdFromText(env, r.memoData))
  }

  function AppIdOf(env: Env, r: Region): Option<seq<byte>> {
    match Classify(env, r)
    case Text(id) => id
    case _ => None
  }

  predicate HasBinary(env: Env, r: Region) {
    Classify(env, r).Binary?
  }

  function IndexOfMemo(env: Env, r: Region): bv16
    requires HasBinary(env, r)
  {
    AppIndex(Classify(env, r).memo)
  }

  predicate HasType(env: Env, r: Region, t: int) {
    HasBinary(env, r) && TransactionType(Classify(env, r).memo) == t
  }

  /** The memo's foreign key is the hash followed by a zero byte. */
  predicate References(env: Env, hash: Option<Bits>, r: Region) {
    hash.Some? && HasBinary(env, r) && KeyIsHash(Classify(env, r).memo, hash.value)
  }

  // ---------- creations

  predicate CloseMatches(c: Creation) {
    if c.createAssoc.Some? then c.createAssoc.value.subsidizer == c.closeAuthority.newAuthority
    else c.create.Some? && c.create.value.funder == c.closeAuthority.newAuthority
  }

  function CreationError(c: Creation): ParseError {
    if c.createAssoc.None? && c.create.None? then CreateWithoutCreate else WrongNewAuthority
  }

  function FirstBadCreation(cs: seq<Creation>): (e: Option<ParseError>)
    ensures e.None? <==> forall k :: 0 <= k < |cs| ==> CloseMatches(cs[k])
  {
    if cs == [] then None
    else if !CloseMatches(cs[0]) then Some(CreationError(cs[0]))
    else
      assert forall k :: 0 < k < |cs| ==> cs[k] == cs[1..][k - 1];
      FirstBadCreation(cs[1..])
  }

  // ---------- one region at a time

  datatype Progress = Progress(
    appId: seq<byte>, appIndex: bv16, hasEarn: bool, hasSpend: bool, hasP2P: bool, refCount: nat)

  const START: Progress := Progress([], 0, false, false, false, 0)

  /** The error region `r` causes after `p`, if any. */
  function Complaint(env: Env, hash: Option<Bits>, count: nat, p: Progress, r: Region): Option<ParseError> {
    var bad := FirstBadCreation(r.creations);
    if bad.Some? then bad
    else
      match Classify(env, r)
      case Nothing => None
      case Text(id) => if id.Some? && p.appId != [] && p.appId != id.value then Some(MultipleAppIds) else None
      case Binary(m) =>
        if p.appIndex > 0 && AppIndex(m) != p.appIndex then Some(MultipleAppIndexes)
        else if References(env, hash, r) && count != |r.transfers| then Some(InvoiceCountMismatch)
        else None
  }

  function Advance(env: Env, hash: Option<Bits>, p: Progress, r: Region): Progress {
    match Classify(env, r)
    case Nothing => p
    case Text(id) => if id.Some? && p.appId == [] then p.(appId := id.value) else p
    case Binary(m) =>
      Progress(
        p.appId,
        if p.appIndex == 0 then AppIndex(m) else p.appIndex,
        p.hasEarn || HasType(env, r, TYPE_EARN),
        p.hasSpend || HasType(env, r, TYPE_SPEND),
        p.hasP2P || HasType(env, r, TYPE_P2P),
        p.refCount + if References(env, hash, r) then 1 else 0)
  }

  function Filled(env: Env, r: Region): Region {
    if HasBinary(env, r) then r.(memo := Some(Classify(env, r).memo)) else r
  }

  function FilledAll(env: Env, rs: seq<Region>): (r: seq<Region>)
    ensures |r| == |rs| && forall k :: 0 <= k < |rs| ==> r[k] == Filled(env, rs[k])
  {
    seq(|rs|, k requires 0 <= k < |rs| => Filled(env, rs[k]))
  }

  function Progressed(env: Env, hash: Option<Bits>, rs: seq<Region>): Progress {
    if rs == [] then START
    else Advance(env, hash, Progressed(env, hash, rs[..|rs| - 1]), rs[|rs| - 1])
  }

  /** The first complaint of the pass over all regions. */
  function FirstComplaint(env: Env, hash: Option<Bits>, count: nat, rs: seq<Region>): Option<ParseError> {
    if rs == [] then None
    else
      var n := |rs| - 1;
      var earlier := FirstComplaint(env, hash, count, rs[..n]);
      if earlier.Some? then earlier
      else Complaint(env, hash, count, Progressed(env, hash, rs[..n]), rs[n])
  }

  datatype Validated = Validated(regions: seq<Region>, appIndex: bv16, appId: seq<byte>)

  function HashOf(env: Env, il: Option<InvoiceList>): Option<Bits> {
    if il.Some? && il.value.encoding.Some? then Some(env.sha224(il.value.encoding.value)) else None
  }

  function CountOf(il: Option<InvoiceList>): nat {
    if il.Some? then il.value.count else 0
  }

  function ValidationOf(env: Env, il: Option<InvoiceList>, rs: seq<Region>): Result<Validated, ParseError> {
    if il.Some? && il.value.encoding.None? then Err(UnencodableInvoices)
    else
      var p := Progressed(env, HashOf(env, il), rs);
      var c := FirstComplaint(env, HashOf(env, il), CountOf(il), rs);
      if c.Some? then Err(c.value)
      else if p.hasEarn && (p.hasSpend || p.hasP2P) then Err(MixedEarns)
      else if il.Some? && p.refCount != 1 then Err(InvoiceReferenceCount)
      else Ok(Validated(FilledAll(env, rs), p.appIndex, p.appId))
  }

  // ---------- the source's loops

  method CheckCreations(cs: seq<Creation>) returns (e: Option<ParseError>)
    ensures e == FirstBadCreation(cs)
  {
    for c := 0 to |cs|
      invariant FirstBadCreation(cs[c..]) == FirstBadCreation(cs)
    {
      assert cs[c..][0] == cs[c] && cs[c..][1..] == cs[c + 1..];
      var closeAuth := cs[c].closeAuthority.newAuthority;
      if cs[c].createAssoc.Some? {
        if cs[c].createAssoc.value.subsidizer != closeAuth {
          return Some(WrongNewAuthority);
        }
      } else if cs[c].create.Some? {
        if cs[c].create.value.funder != closeAuth {
          return Some(WrongNewAuthority);
        }
      } else {
        return Some(CreateWithoutCreate);
      }
    }
    return None;
  }

  predicate KeyIsHash(m: Memo, hash: Bits) {
    ForeignKeyOf(m)[..28] == hash && ForeignKeyOf(m)[28] == 0
  }

  method MatchesHash(m: Memo, hash: Bits) returns (matches: bool)
    ensures matches == KeyIsHash(m, hash)
  {
    var fk := ForeignKey(m);
    assert fk[..] == ForeignKeyOf(m);
    assert fk[..28] == ForeignKeyOf(m)[..28];
    matches := fk[..28] == hash && fk[28] == 0;
  }

  /** Records the memo's transaction type. */
  method VisitType(p: Progress, t: int) returns (q: Progress)
    ensures q == p.(hasEarn := p.hasEarn || t == TYPE_EARN, hasSpend := p.hasSpend || t == TYPE_SPEND,
                    hasP2P := p.hasP2P || t == TYPE_P2P)
  {
    q := p;
    if t == TYPE_EARN {
      q := q.(hasEarn := true);
    } else if t == TYPE_SPEND {
      q := q.(hasSpend := true);
    } else if t == TYPE_P2P {
      q := q.(hasP2P := true);
    }
  }

  /** What an invoice memo of type `t` and app index `index` does to the progress. */
  method VisitMemo(p: Progress, t: int, index: bv16, matches: bool, countsDiffer: bool)
    returns (e: Option<ParseError>, q: Progress)
    ensures e == if p.appIndex > 0 && index != p.appIndex then Some(MultipleAppIndexes)
                 else if matches && countsDiffer then Some(InvoiceCountMismatch)
                 else None
    ensures e.None? ==>
              q == Progress(p.appId, if p.appIndex == 0 then index else p.appIndex,
                            p.hasEarn || t == TYPE_EARN, p.hasSpend || t == TYPE_SPEND, p.hasP2P || t == TYPE_P2P,
                            p.refCount + if matches then 1 else 0)
  {
    e := None;
    q := VisitType(p, t);
    if q.appIndex > 0 && index != q.appIndex {
      e := Some(MultipleAppIndexes);
      return;
    } else if q.appIndex == 0 {
      q := q.(appIndex := index);
    }
    if !matches {
      return;
    }
    q := q.(refCount := q.refCount + 1);
    if countsDiffer {
      e := Some(InvoiceCountMismatch);
    }
  }

  /** The body of the loop over the regions. */
  method VisitRegion(env: Env, hash: Option<Bits>, count: nat, p: Progress, region: Region)
    returns (e: Option<ParseError>, q: Progress, r: Region)
    ensures e == Complaint(env, hash, count, p, region)
    ensures e.None? ==> q == Advance(env, hash, p, region) && r == Filled(env, region)
  {
    q, r := p, region;
    e := CheckCreations(region.creations);
    if e.Some? {
      return;
    }
    if |region.memoData| == 0 {
      return;
    }
    var memo := MemoFromBase64(env, region.memoData);
    if memo.None? {
      var appId := AppIdFromText(env, region.memoData);
      if appId.Some? {
        if q.appId == [] {
          q := q.(appId := appId.value);
        } else if q.appId != appId.value {
          e := Some(MultipleAppIds);
        }
      }
      return;
    }
    r := r.(memo := Some(memo.value));
    var matches := false;
    if hash.Some? {
      matches := MatchesHash(memo.value, hash.value);
    }
    e, q := VisitMemo(q, TransactionType(memo.value), AppIndex(memo.value), matches, count != |region.transfers|);
  }

  /** The second pass of `ParseTransaction`. */
  method Validate(env: Env, il: Option<InvoiceList>, scanned: seq<Region>) returns (v: Result<Validated, ParseError>)
    ensures v == ValidationOf(env, il, scanned)
  {
    var hash: Option<Bits> := None;
    if il.Some? {
      if il.value.encoding.None? {
        return Err(UnencodableInvoices);
      }
      hash := Some(env.sha224(il.value.encoding.value));
    }
    var p := START;
    var regions := scanned;
    for r := 0 to |regions|
      invariant |regions| == |scanned|
      invariant FirstComplaint(env, hash, CountOf(il), scanned[..r]).None?
      invariant p == Progressed(env, hash, scanned[..r])
      invariant forall k :: 0 <= k < r ==> regions[k] == Filled(env, scanned[k])
      invariant forall k :: r <= k < |scanned| ==> regions[k] == scanned[k]
    {
      assert scanned[..r + 1][..r] == scanned[..r];
      var e, q, region := VisitRegion(env, hash, CountOf(il), p, regions[r]);
      if e.Some? {
        ComplaintStands(env, hash, CountOf(il), scanned, r + 1);
        return Err(e.value);
      }
      p := q;
      regions := regions[r := region];
    }
    assert scanned[..|scanned|] == scanned;
    assert regions == FilledAll(env, scanned);
    if p.hasEarn && (p.hasSpend || p.hasP2P) {
      return Err(MixedEarns);
    }
    if il.Some? && p.refCount != 1 {
      return Err(InvoiceReferenceCount);
    }
    return Ok(Validated(regions, p.appIndex, p.appId));
  }

  lemma {:induction false} ComplaintStands(env: Env, hash: Option<Bits>, count: nat, rs: seq<Region>, k: nat)
    requires k <= |rs| && FirstComplaint(env, hash, count, rs[..k]).Some?
    ensures FirstComplaint(env, hash, count, rs) == FirstComplaint(env, hash, count, rs[..k])
    decreases |rs| - k
  {
    if k == |rs| {
      assert rs[..k] == rs;
    } else {
      assert rs[..k + 1][..k] == rs[..k];
      ComplaintStands(env, hash, count, rs, k + 1);
    }
  }
}
