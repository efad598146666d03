/** The read-only audit of a canary release against its expected asset map. */
module ReleaseAudit {
  import opened Prelude
  import opened PlainNames

  datatype Asset = Asset(name: Text, size: int, sha256: Text)

  /** `canonical` says that the version is a semantic version in its normal form. */
  datatype Expectation = Expectation(repository: Text, sourceSha: Text, version: Text, canonical: bool,
                                     assets: seq<Asset>)

  function Tag(e: Expectation): Text { [118] + e.version }

  predicate ValidIdentity(e: Expectation) {
    && IsRepository(e.repository) && IsFullSha(e.sourceSha)
    && e.canonical && EndsWith(e.version, CanarySuffix(e.sourceSha))
  }

  // ---- What the remote answers ----------------------------------------------------------------

  datatype Release = Release(
    id: int, tagName: Text, prerelease: bool, draft: bool, immutable: bool,
    publicUrl: bool,      // html_url is the tag's page
    draftUrl: bool,       // html_url is an untagged- page with a hex suffix
    apiUrl: bool,         // url is the API page of this id
    target: Text)

  datatype ReleaseAnswer = NoRelease | ReleaseError | Found(release: Release)

  datatype TagAnswer = NoTag | TagError | TagAt(sha: Text)

  datatype Listed = Malformed | Listed(id: int, name: Text, uploaded: bool, size: int, sha256: Text)

  datatype Answers = Answers(release: ReleaseAnswer, tag: TagAnswer, listing: Option<seq<Listed>>)

  // ---- What the audit concludes ---------------------------------------------------------------

  datatype Stage = Absent | Draft | Complete

  datatype Publication = Publication(stage: Stage, releaseId: Option<int>, present: seq<Text>, missing: seq<Asset>)

  predicate ValidAsset(a: Asset) {
    IsPlainName(a.name) && 0 <= a.size <= MAX_SAFE && IsDigest(a.sha256)
  }

  predicate UniqueNames(assets: seq<Asset>) {
    forall i, j :: 0 <= i < j < |assets| ==> assets[i].name != assets[j].name
  }

  predicate ValidAssets(assets: seq<Asset>) {
    (forall i :: 0 <= i < |assets| ==> ValidAsset(assets[i])) && UniqueNames(assets)
  }

  predicate ValidExpectation(e: Expectation) { ValidIdentity(e) && e.assets != [] && ValidAssets(e.assets) }

  /** The tag may be missing only where allowed, and otherwise points at the source. */
  predicate TagAccepted(t: TagAnswer, source: Text, mayBeAbsent: bool) {
    (t.NoTag? && mayBeAbsent) || (t.TagAt? && t.sha == source)
  }

  predicate ReleaseAccepted(e: Expectation, r: Release, t: TagAnswer) {
    && r.id > 0 && r.tagName == Tag(e) && r.prerelease
    && (r.publicUrl || (r.draft && r.draftUrl)) && r.apiUrl && r.target != []
    && (r.draft || r.immutable)
    && TagAccepted(t, e.sourceSha, r.draft)
    && (t.NoTag? ==> r.target == e.sourceSha)
  }

  predicate Matches(l: Listed, a: Asset) {
    l.Listed? && l.id > 0 && l.name == a.name && l.uploaded && l.size == a.size && l.sha256 == a.sha256
  }

  predicate Expected(e: Expectation, l: Listed) {
    exists k :: 0 <= k < |e.assets| && Matches(l, e.assets[k])
  }

  /** Every listed asset is an expected one with the approved size and digest, each at most once. */
  predicate ListingAccepted(e: Expectation, listing: seq<Listed>) {
    && (forall i :: 0 <= i < |listing| ==> Expected(e, listing[i]))
    && (forall i, j :: 0 <= i < j < |listing| ==> listing[i].name != listing[j].name && listing[i].id != listing[j].id)
  }

  predicate Lists(listing: seq<Listed>, name: Text) {
    exists i :: 0 <= i < |listing| && listing[i].Listed? && listing[i].name == name
  }

  /** The order-free condition under which the audit succeeds. */
  predicate Accepts(e: Expectation, a: Answers) {
    && ValidExpectation(e)
    && match a.release
       case NoRelease => TagAccepted(a.tag, e.sourceSha, true)
       case ReleaseError => false
       case Found(r) =>
         && ReleaseAccepted(e, r, a.tag)
         && a.listing.Some? && ListingAccepted(e, a.listing.value)
         && (!r.draft ==> forall k :: 0 <= k < |e.assets| ==> Lists(a.listing.value, e.assets[k].name))
  }

  /** The expected assets a listing lacks, in expectation order. */
  function MissingFrom(assets: seq<Asset>, listing: seq<Listed>): seq<Asset> {
    if assets == [] then []
    else
      var rest := MissingFrom(assets[1..], listing);
      if Lists(listing, assets[0].name) then rest else [assets[0]] + rest
  }

  lemma {:induction false} MissingAre(assets: seq<Asset>, listing: seq<Listed>, a: Asset)
    ensures a in MissingFrom(assets, listing) <==> a in assets && !Lists(listing, a.name)
  {
    if assets != [] {
      MissingAre(assets[1..], listing, a);
      assert assets == [assets[0]] + assets[1..];
    }
  }

  function PresentIn(assets: seq<Asset>, listing: seq<Listed>): seq<Text> {
    if assets == [] then []
    else
      var rest := PresentIn(assets[1..], listing);
      if Lists(listing, assets[0].name) then [assets[0].name] + rest else rest
  }

  function Conclusion(e: Expectation, a: Answers): Publication
    requires Accepts(e, a)
  {
    match a.release
    case NoRelease => Publication(Absent, None, [], e.assets)
    case Found(r) =>
      Publication(if r.draft then Draft else Complete, Some(r.id),
                  PresentIn(e.assets, a.listing.value), MissingFrom(e.assets, a.listing.value))
  }

  /** The audit as a value: what it concludes, or that it throws. */
  function Audit(e: Expectation, a: Answers): Result<Publication> {
    if Accepts(e, a) then Ok(Conclusion(e, a)) else Failed
  }

  // ---- The audit as the code runs it -----------------------------------------------------------

  /** `validateExpectation`: the assets by name, or an error. */
  method ValidateExpectation(e: Expectation) returns (r: Result<map<Text, Asset>>)
    ensures r.Ok? <==> ValidExpectation(e)
    ensures r.Ok? ==> ByName(e.assets, r.value)
  {
    if !ValidIdentity(e) || e.assets == [] {
      return Failed;
    }
    r := CollectAssets(e.assets);
  }

  /** The loop of `validateExpectation`. */
  method CollectAssets(assets: seq<Asset>) returns (r: Result<map<Text, Asset>>)
    ensures r.Ok? <==> ValidAssets(assets)
    ensures r.Ok? ==> ByName(assets, r.value)
  {
    var m: map<Text, Asset> := map[];
    for i := 0 to |assets|
      invariant ValidAssets(assets[..i]) && ByName(assets[..i], m)
    {
      var a := assets[i];
      assert assets[..i + 1] == assets[..i] + [a];
      ValidSnoc(assets[..i], m, a);
      ValidPrefix(assets, i + 1);
      if !ValidAsset(a) || a.name in m {
        return Failed;
      }
      ByNameSnoc(assets[..i], m, a);
      m := m[a.name := a];
    }
    assert assets[..|assets|] == assets;
    r := Ok(m);
  }

  lemma ValidPrefix(assets: seq<Asset>, n: nat)
    requires n <= |assets|
    ensures ValidAssets(assets) ==> ValidAssets(assets[..n])
  {
  }

  /** One more asset is valid exactly when it is in itself and its name is new. */
  lemma ValidSnoc(assets: seq<Asset>, m: map<Text, Asset>, a: Asset)
    requires ByName(assets, m) && ValidAssets(assets)
    ensures ValidAssets(assets + [a]) <==> ValidAsset(a) && a.name !in m
  {
    var longer := assets + [a];
    assert longer[|assets|] == a && forall k :: 0 <= k < |assets| ==> longer[k] == assets[k];
    if a.name in m {
      var k :| 0 <= k < |assets| && assets[k].name == a.name && assets[k] == m[a.name];
      assert longer[k].name == longer[|assets|].name;
    }
  }

  ghost predicate ByName(assets: seq<Asset>, m: map<Text, Asset>) {
    && UniqueNames(assets)
    && (forall n :: n in m ==> exists k :: 0 <= k < |assets| && assets[k].name == n && assets[k] == m[n])
    && (forall k :: 0 <= k < |assets| ==> assets[k].name in m && m[assets[k].name] == assets[k])
  }

  lemma ByNameSnoc(assets: seq<Asset>, m: map<Text, Asset>, a: Asset)
    requires ByName(assets, m) && a.name !in m
    ensures ByName(assets + [a], m[a.name := a])
  {
    var longer, m' := assets + [a], m[a.name := a];
    forall n | n in m' ensures exists k :: 0 <= k < |longer| && longer[k].name == n && longer[k] == m'[n] {
      if n == a.name {
        assert longer[|assets|] == a;
      } else {
        var k :| 0 <= k < |assets| && assets[k].name == n && assets[k] == m[n];
        assert longer[k] == m'[n];
      }
    }
  }

  /** The names and IDs of the assets listed so far. */
  ghost predicate Noted(listing: seq<Listed>, names: set<Text>, ids: set<int>) {
    && (forall n :: n in names <==> Lists(listing, n))
    && (forall d :: d in ids <==> ListsId(listing, d))
  }

  predicate ListsId(listing: seq<Listed>, id: int) {
    exists i :: 0 <= i < |listing| && listing[i].Listed? && listing[i].id == id
  }

  predicate EntryAccepted(assets: map<Text, Asset>, names: set<Text>, ids: set<int>, l: Listed) {
    l.Listed? && l.name in assets && l.name !in names && l.id !in ids && Matches(l, assets[l.name])
  }

  lemma ExpectedByName(e: Expectation, assets: map<Text, Asset>, l: Listed)
    requires ByName(e.assets, assets)
    ensures Expected(e, l) <==> l.Listed? && l.name in assets && Matches(l, assets[l.name])
  {
    if l.Listed? && l.name in assets {
      var k :| 0 <= k < |e.assets| && e.assets[k].name == l.name && e.assets[k] == assets[l.name];
    }
  }

  predicate Fresh(listing: seq<Listed>, l: Listed)
    requires l.Listed?
  {
    !Lists(listing, l.name) && !ListsId(listing, l.id)
  }

  /** One more listed asset is accepted exactly when it is expected and new. */
  lemma AcceptedSnoc(e: Expectation, prefix: seq<Listed>, l: Listed)
    requires ListingAccepted(e, prefix)
    ensures ListingAccepted(e, prefix + [l]) <==> Expected(e, l) && l.Listed? && Fresh(prefix, l)
  {
    var longer := prefix + [l];
    assert longer[|prefix|] == l && forall k :: 0 <= k < |prefix| ==> longer[k] == prefix[k];
    assert forall k :: 0 <= k < |prefix| ==> Expected(e, prefix[k]) && prefix[k].Listed?;
    if l.Listed? && Lists(prefix, l.name) {
      var k :| 0 <= k < |prefix| && prefix[k].Listed? && prefix[k].name == l.name;
      assert longer[k].name == longer[|prefix|].name;
    }
    if l.Listed? && ListsId(prefix, l.id) {
      var k :| 0 <= k < |prefix| && prefix[k].Listed? && prefix[k].id == l.id;
      assert longer[k].id == longer[|prefix|].id;
    }
  }

  lemma AcceptedPrefix(e: Expectation, listing: seq<Listed>, n: nat)
    requires n <= |listing|
    ensures ListingAccepted(e, listing) ==> ListingAccepted(e, listing[..n])
  {
  }

  /** The asset loop of `verifyCanaryReleasePublication`. */
  method CheckListing(e: Expectation, assets: map<Text, Asset>, listing: seq<Listed>)
    returns (present: Result<set<Text>>)
    requires ByName(e.assets, assets)
    ensures present.Ok? <==> ListingAccepted(e, listing)
    ensures present.Ok? ==> forall n :: n in present.value <==> Lists(listing, n)
  {
    var names: set<Text>, ids: set<int> := {}, {};
    for i := 0 to |listing|
      invariant ListingAccepted(e, listing[..i]) && Noted(listing[..i], names, ids)
    {
      var l := listing[i];
      assert listing[..i + 1] == listing[..i] + [l];
      ExpectedByName(e, assets, l);
      AcceptedSnoc(e, listing[..i], l);
      AcceptedPrefix(e, listing, i + 1);
      if !EntryAccepted(assets, names, ids, l) {
        return Failed;
      }
      ListsSnoc(listing[..i], l);
      names := names + {l.name};
      ids := ids + {l.id};
    }
    assert listing[..|listing|] == listing;
    present := Ok(names);
  }

  lemma ListsSnoc(prefix: seq<Listed>, l: Listed)
    requires l.Listed?
    ensures forall n :: Lists(prefix + [l], n) <==> Lists(prefix, n) || n == l.name
    ensures forall d :: ListsId(prefix + [l], d) <==> ListsId(prefix, d) || d == l.id
  {
    var longer := prefix + [l];
    assert longer[|prefix|] == l && forall k :: 0 <= k < |prefix| ==> longer[k] == prefix[k];
  }

  /** Splits the expected assets by what the listing showed, keeping their order. */
  method Partition(assets: seq<Asset>, ghost listing: seq<Listed>, present: set<Text>)
    returns (missing: seq<Asset>, found: seq<Text>)
    requires forall n :: n in present <==> Lists(listing, n)
    ensures missing == MissingFrom(assets, listing) && found == PresentIn(assets, listing)
  {
    missing, found := [], [];
    for i := 0 to |assets|
      invariant missing + MissingFrom(assets[i..], listing) == MissingFrom(assets, listing)
      invariant found + PresentIn(assets[i..], listing) == PresentIn(assets, listing)
    {
      assert assets[i..][1..] == assets[i + 1..];
      if assets[i].name in present {
        found := found + [assets[i].name];
      } else {
        missing := missing + [assets[i]];
      }
    }
  }

  lemma NothingMissing(assets: seq<Asset>, listing: seq<Listed>)
    ensures MissingFrom(assets, listing) == [] <==> forall k :: 0 <= k < |assets| ==> Lists(listing, assets[k].name)
  {
    var missing := MissingFrom(assets, listing);
    if missing == [] {
      forall k | 0 <= k < |assets| ensures Lists(listing, assets[k].name) {
        MissingAre(assets, listing, assets[k]);
      }
    } else {
      MissingAre(assets, listing, missing[0]);
    }
  }

  /** `verifyCanaryReleasePublication`: the same answer as `Audit`, for every answer of the remote. */
  method Verify(e: Expectation, a: Answers) returns (r: Result<Publication>)
    ensures r == Audit(e, a)
  {
    var assets := ValidateExpectation(e);
    if assets.Failed? {
      return Failed;
    }
    match a.release
    case ReleaseError =>
      return Failed;
    case NoRelease =>
      if !TagAccepted(a.tag, e.sourceSha, true) {
        return Failed;
      }
      return Ok(Publication(Absent, None, [], e.assets));
    case Found(release) =>
      if !ReleaseAccepted(e, release, a.tag) || a.listing.None? {
        return Failed;
      }
      var present := CheckListing(e, assets.value, a.listing.value);
      if present.Failed? {
        return Failed;
      }
      var missing, found := Partition(e.assets, a.listing.value, present.value);
      NothingMissing(e.assets, a.listing.value);
      if !release.draft && missing != [] {
        return Failed;
      }
      r := Ok(Publication(if release.draft then Draft else Complete, Some(release.id), found, missing));
  }

  // ---- What a conclusion means ------------------------------------------------------------------

  /** The listing holds this asset with the approved size and digest. */
  predicate Confirmed(listing: seq<Listed>, x: Asset) {
    exists i :: 0 <= i < |listing| && Matches(listing[i], x)
  }

  lemma ListedIsConfirmed(e: Expectation, listing: seq<Listed>, x: Asset)
    requires UniqueNames(e.assets) && ListingAccepted(e, listing) && x in e.assets && Lists(listing, x.name)
    ensures Confirmed(listing, x)
  {
    var i :| 0 <= i < |listing| && listing[i].Listed? && listing[i].name == x.name;
    assert Expected(e, listing[i]);
    var k :| 0 <= k < |e.assets| && Matches(listing[i], e.assets[k]);
    var j :| 0 <= j < |e.assets| && e.assets[j] == x;
    assert e.assets[k].name == e.assets[j].name;
    assert k == j;
  }

  /** Present and missing partition the expected names; a complete release misses nothing. */
  lemma ConclusionSound(e: Expectation, a: Answers)
    requires Accepts(e, a)
    ensures var p := Conclusion(e, a);
            && (forall x :: x in p.missing ==> x in e.assets)
            && (p.stage == Absent ==> p.missing == e.assets && p.releaseId.None?)
            && (p.stage == Complete ==> p.missing == [])
            && (p.stage != Absent ==> a.release.Found? && a.listing.Some?)
            && (p.stage != Absent ==> forall x :: x in e.assets && x !in p.missing ==> Confirmed(a.listing.value, x))
  {
    if a.release.Found? {
      var listing := a.listing.value;
      forall x ensures x in MissingFrom(e.assets, listing) <==> x in e.assets && !Lists(listing, x.name) {
        MissingAre(e.assets, listing, x);
      }
      forall x | x in e.assets && Lists(listing, x.name) ensures Confirmed(listing, x) {
        ListedIsConfirmed(e, listing, x);
      }
      NothingMissing(e.assets, listing);
    }
  }

  // ---- When there is a conclusion ------------------------------------------------------------------------

  /** Every listed asset is complete and is an expected one, with its size and digest; none is listed twice. */
  predicate Agrees(e: Expectation, listing: seq<Listed>) {
    && (forall i :: 0 <= i < |listing| ==>
          && listing[i].Listed? && listing[i].id > 0 && listing[i].uploaded
          && Asset(listing[i].name, listing[i].size, listing[i].sha256) in e.assets)
    && (forall i, j :: 0 <= i < |listing| && 0 <= j < |listing| && i != j ==>
          listing[i].name != listing[j].name && listing[i].id != listing[j].id)
  }

  lemma AgreesExactly(e: Expectation, listing: seq<Listed>)
    ensures ListingAccepted(e, listing) <==> Agrees(e, listing)
  {
    if ListingAccepted(e, listing) {
      forall i | 0 <= i < |listing|
        ensures && listing[i].Listed? && listing[i].id > 0 && listing[i].uploaded
                && Asset(listing[i].name, listing[i].size, listing[i].sha256) in e.assets
      {
        assert Expected(e, listing[i]);
        var k :| 0 <= k < |e.assets| && Matches(listing[i], e.assets[k]);
        assert e.assets[k] == Asset(listing[i].name, listing[i].size, listing[i].sha256);
      }
    }
    if Agrees(e, listing) {
      forall i | 0 <= i < |listing| ensures Expected(e, listing[i]) {
        var k :| 0 <= k < |e.assets| && e.assets[k] == Asset(listing[i].name, listing[i].size, listing[i].sha256);
        assert Matches(listing[i], e.assets[k]);
      }
    }
  }

  /** The release and its tag are those of the expected version: a pre-release under its own tag, which points
      at the source once it exists, and immutable with such a tag once it is public. */
  predicate Belongs(e: Expectation, r: Release, tag: TagAnswer) {
    && r.id > 0 && r.tagName == [118] + e.version && r.prerelease && r.apiUrl && r.target != []
    && (if r.draft then r.publicUrl || r.draftUrl else r.publicUrl && r.immutable)
    && (tag == TagAt(e.sourceSha) || (tag == NoTag && r.draft && r.target == e.sourceSha))
  }

  /** The audit concludes in exactly these cases: absent without a foreign tag; a draft; or complete with every
      expected asset. */
  lemma AuditExactly(e: Expectation, a: Answers, p: Publication)
    ensures Audit(e, a) == Ok(p) <==>
            && ValidExpectation(e)
            && match p.stage
               case Absent =>
                 && a.release == NoRelease && (a.tag == NoTag || a.tag == TagAt(e.sourceSha))
                 && p == Publication(Absent, None, [], e.assets)
               case _ =>
                 && a.release.Found? && Belongs(e, a.release.release, a.tag) && a.listing.Some?
                 && Agrees(e, a.listing.value) && a.release.release.draft == (p.stage == Draft)
                 && (p.stage == Complete ==> p.missing == []) && p.releaseId == Some(a.release.release.id)
                 && p.missing == MissingFrom(e.assets, a.listing.value)
                 && p.present == PresentIn(e.assets, a.listing.value)
  {
    if a.listing.Some? {
      AgreesExactly(e, a.listing.value);
      NothingMissing(e.assets, a.listing.value);
    }
  }

  /** What can be expected at all: the repository, commit and version of a canary, and at least one asset, each
      under a plain name of its own with a safe size and a digest. */
  lemma ExpectationExactly(e: Expectation)
    ensures ValidExpectation(e) <==>
            && IsRepository(e.repository) && |e.sourceSha| == 40 && (forall i :: 0 <= i < 40 ==> IsHex(e.sourceSha[i]))
            && e.canonical && (exists base :: e.version == base + CanarySuffix(e.sourceSha)) && |e.assets| > 0
            && (forall k :: 0 <= k < |e.assets| ==>
                  && IsPlainName(e.assets[k].name) && 0 <= e.assets[k].size <= 0x1f_ffff_ffff_ffff
                  && |e.assets[k].sha256| == 64 && forall i :: 0 <= i < 64 ==> IsHex(e.assets[k].sha256[i]))
            && (forall j, k :: 0 <= j < |e.assets| && 0 <= k < |e.assets| && e.assets[j].name == e.assets[k].name ==>
                  j == k)
  {
    if IsFullSha(e.sourceSha) {
      var end := CanarySuffix(e.sourceSha);
      if EndsWith(e.version, end) {
        assert e.version == e.version[..|e.version| - |end|] + end;
      }
      forall base | e.version == base + end ensures EndsWith(e.version, end) {
        assert e.version[|base|..] == end;
      }
    }
    assert UniqueNames(e.assets) <==>
        forall j, k :: 0 <= j < |e.assets| && 0 <= k < |e.assets| && e.assets[j].name == e.assets[k].name ==> j == k;
    assert forall k :: 0 <= k < |e.assets| ==>
        (ValidAsset(e.assets[k]) <==>
         && IsPlainName(e.assets[k].name) && 0 <= e.assets[k].size <= 0x1f_ffff_ffff_ffff
         && |e.assets[k].sha256| == 64 && forall i :: 0 <= i < 64 ==> IsHex(e.assets[k].sha256[i]));
  }
}
