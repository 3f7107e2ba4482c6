/** Merging a package-built item onto the platform's draft
    (services/process-runtime/stac_higher_stactools/merge.py) and the staging that
    feeds it (runner.py). */
module ItemMerge {
  import opened Basics
  import opened Json

  const DRAFT_OWNED: seq<string> := ["id", "collection", "stac_version", "links", "type"]
  // The item-level keys a merge may write.
  const MERGED_KEYS: set<string> := {"properties", "geometry", "bbox", "stac_extensions", "assets"}
  const FILE_SCHEME := "file://"

  datatype MergeError = NoAssetsObject | NotAnItem
  datatype Reason = NoDraftAsset | AlreadyMatched(draftKey: string)
  // One report line for a produced asset that was not carried over.
  datatype Dropped = Dropped(key: string, href: Json, reason: Reason)
  datatype MergeResult = MergeResult(item: Dict<Json>, dropped: seq<Dropped>)

  // Staged local paths, indexed by resolved path and by file name.
  datatype Lookup = Lookup(byPath: map<string, string>, byName: map<string, string>)

  /* ---------------------------------- staging ---------------------------------- */

  function Basename(path: string): (r: string)
    ensures '/' !in r
  {
    if path == "" || path[|path| - 1] == '/' then ""
    else
      var front := Basename(path[..|path| - 1]);
      front + [path[|path| - 1]]
  }

  function Filename(asset: Dict<Json>, fallback: string): string {
    var key := Get(asset, "key");
    if key.Str? && key.s != "" && Basename(TrimEnd(key.s, '/')) != "" then Basename(TrimEnd(key.s, '/'))
    else fallback
  }

  // pathlib's `directory / name`: empty and "." components vanish, a rooted name replaces the directory.
  function JoinPath(directory: string, name: string): string {
    AppendComponents(if name != "" && name[0] == '/' then "" else directory, SplitOn(name, '/'))
  }

  function AppendComponents(path: string, parts: seq<string>): string
    decreases |parts|
  {
    if parts == [] then path
    else if parts[0] == "" || parts[0] == "." then AppendComponents(path, parts[1..])
    else AppendComponents(path + "/" + parts[0], parts[1..])
  }

  // A name that is one path component and not the directory itself.
  predicate PlainName(name: string) {
    name != "" && name != "." && '/' !in name
  }

  datatype StageError = SameFilename(target: string) | DownloadFailed

  predicate Stageable(asset: Json) {
    asset.Obj? && Truthy(Get(asset.fields, "bucket")) && Truthy(Get(asset.fields, "key"))
  }

  function Target(directory: string, key: string, asset: Json): string {
    JoinPath(directory, Filename(ObjectOrEmpty(asset), key))
  }

  predicate Taken(paths: Dict<string>, target: string) {
    target in paths.at.Values
  }

  function StageOne(paths: Dict<string>, key: string, asset: Json, directory: string, downloads: string -> bool)
    : Result<Dict<string>, StageError>
  {
    var target := Target(directory, key, asset);
    if !Stageable(asset) then Ok(paths)
    else if Taken(paths, target) then Err(SameFilename(target))
    else if !downloads(target) then Err(DownloadFailed)
    else Ok(Put(paths, key, target))
  }

  // `stage_assets`: the first refused repeat or failed download ends it.
  function StagedSpec(keys: seq<string>, at: map<string, Json>, directory: string, downloads: string -> bool)
    : Result<Dict<string>, StageError>
  {
    if keys == [] then Ok(Empty())
    else
      match StagedSpec(keys[..|keys| - 1], at, directory, downloads)
      case Err(e) => Err(e)
      case Ok(paths) => StageOne(paths, keys[|keys| - 1], At(at, keys[|keys| - 1]), directory, downloads)
  }

  method StageAssets(assets: Dict<Json>, directory: string, downloads: string -> bool)
    returns (r: Result<Dict<string>, StageError>)
    ensures r == StagedSpec(assets.keys, assets.at, directory, downloads)
  {
    var paths: Dict<string> := Empty();
    for n := 0 to |assets.keys|
      invariant StagedSpec(assets.keys[..n], assets.at, directory, downloads) == Ok(paths)
    {
      var key := assets.keys[n];
      assert assets.keys[..n + 1][..n] == assets.keys[..n];
      r := StageOne(paths, key, At(assets.at, key), directory, downloads);
      assert r == StagedSpec(assets.keys[..n + 1], assets.at, directory, downloads);
      if r.Err? {
        StageErrorStays(assets.keys, n + 1, assets.at, directory, downloads);
        return;
      }
      paths := r.value;
    }
    assert assets.keys[..|assets.keys|] == assets.keys;
    r := Ok(paths);
  }

  lemma {:induction false} StageErrorStays(keys: seq<string>, n: nat, at: map<string, Json>, directory: string, downloads: string -> bool)
    requires n <= |keys|
    requires StagedSpec(keys[..n], at, directory, downloads).Err?
    ensures StagedSpec(keys, at, directory, downloads) == StagedSpec(keys[..n], at, directory, downloads)
  {
    if n == |keys| {
      assert keys[..n] == keys;
    } else {
      assert keys[..|keys| - 1][..n] == keys[..n];
      StageErrorStays(keys[..|keys| - 1], n, at, directory, downloads);
    }
  }

  /* ---------------------------------- matching ---------------------------------- */

  function IndexBy(keys: seq<string>, at: map<string, string>, f: string -> string): map<string, string> {
    if keys == [] then map[]
    else
      var front, last := IndexBy(keys[..|keys| - 1], at, f), keys[|keys| - 1];
      if last in at then front[f(at[last]) := last] else front
  }

  function LookupOf(staged: Dict<string>, norm: string -> string): Lookup {
    Lookup(IndexBy(staged.keys, staged.at, norm), IndexBy(staged.keys, staged.at, Basename))
  }

  // The draft asset key staged at the file `href` points to, if any.
  function MatchKey(href: Json, lookup: Lookup, norm: string -> string): Option<string> {
    if !href.Str? || href.s == "" then None
    else
      var local := RemovePrefix(href.s, FILE_SCHEME);
      if norm(local) in lookup.byPath then Some(lookup.byPath[norm(local)])
      else
        var name := Basename(TrimEnd(Before(local, '?'), '/'));
        if name in lookup.byName then Some(lookup.byName[name]) else None
  }

  // Which produced asset each draft key went to, and the report so far.
  datatype Matching = Matching(winners: map<string, string>, dropped: seq<Dropped>)

  function MatchOne(m: Matching, key: string, asset: Json, claim: Json -> Option<string>): Matching {
    if !asset.Obj? then m
    else
      var href := Get(asset.fields, "href");
      match claim(href)
      case None => m.(dropped := m.dropped + [Dropped(key, href, NoDraftAsset)])
      case Some(k) =>
        if k in m.winners then m.(dropped := m.dropped + [Dropped(key, href, AlreadyMatched(k))])
        else m.(winners := m.winners[k := key])
  }

  // `claim` is the draft key an href points at, if any.
  function MatchAll(keys: seq<string>, at: map<string, Json>, claim: Json -> Option<string>): Matching {
    if keys == [] then Matching(map[], [])
    else MatchOne(MatchAll(keys[..|keys| - 1], at, claim), keys[|keys| - 1], At(at, keys[|keys| - 1]), claim)
  }

  // The metadata each matched draft asset gains: everything but the href.
  function Gains(m: Matching, at: map<string, Json>): map<string, Dict<Json>> {
    map k | k in m.winners :: Pop(ObjectOrEmpty(At(at, m.winners[k])), "href")
  }

  /* ---------------------------------- the merged item ---------------------------------- */

  function MergedProperties(draft: Dict<Json>, produced: Dict<Json>): Dict<Json> {
    var base := ObjectOrEmpty(Get(draft, "properties"));
    var theirs := Get(produced, "properties");
    DatetimeOrStart(if theirs.Obj? then Update(base, theirs.fields) else base)
  }

  function DatetimeOrStart(props: Dict<Json>): Dict<Json> {
    if Get(props, "datetime").Null? && Get(props, "start_datetime").Str? then
      Put(props, "datetime", Get(props, "start_datetime"))
    else props
  }

  function WithGeometry(item: Dict<Json>, produced: Dict<Json>): Dict<Json> {
    if !Get(produced, "geometry").Null? then
      Put(Put(item, "geometry", Get(produced, "geometry")), "bbox", Get(produced, "bbox"))
    else if !Get(produced, "bbox").Null? && Get(item, "bbox").Null? then
      Put(item, "bbox", Get(produced, "bbox"))
    else item
  }

  function AddNew(acc: seq<string>, items: seq<Json>): seq<string> {
    if items == [] then acc
    else
      var front := AddNew(acc, items[..|items| - 1]);
      var last := items[|items| - 1];
      if last.Str? && last.s !in front then front + [last.s] else front
  }

  function MergedExtensions(draft: Dict<Json>, produced: Dict<Json>): seq<string> {
    AddNew(AddNew([], ItemsOrNone(Get(draft, "stac_extensions"))), ItemsOrNone(Get(produced, "stac_extensions")))
  }

  function StrArray(s: seq<string>): Json {
    Arr(Map(s, x => Str(x)))
  }

  function MergedAsset(draftAsset: Json, gained: Dict<Json>): Json {
    var asset := ObjectOrEmpty(draftAsset);
    Obj(Put(Update(asset, gained), "href", Get(asset, "href")))
  }

  function GainOf(gains: map<string, Dict<Json>>, key: string): Dict<Json> {
    if key in gains then gains[key] else Empty()
  }

  function MergedAssets(draftAssets: Dict<Json>, gains: map<string, Dict<Json>>): Dict<Json> {
    Dict(draftAssets.keys, MergedMembers(draftAssets.at, gains))
  }

  function MergedMembers(at: map<string, Json>, gains: map<string, Dict<Json>>): (r: map<string, Json>)
    ensures r.Keys == at.Keys
    ensures forall k :: k in at ==> r[k] == MergedAsset(at[k], GainOf(gains, k))
  {
    map k | k in at :: MergedAsset(at[k], GainOf(gains, k))
  }

  function RestoreOwned(item: Dict<Json>, draft: Dict<Json>, owned: seq<string>): Dict<Json> {
    if owned == [] then item
    else
      var front := RestoreOwned(item, draft, owned[..|owned| - 1]);
      var key := owned[|owned| - 1];
      if key in draft.at then Put(front, key, draft.at[key]) else Pop(front, key)
  }

  // A parsed item: objects list each of their keys once.
  ghost predicate ItemWellFormed(item: Dict<Json>) {
    && WellFormed(item)
    && WellFormed(ObjectOrEmpty(Get(item, "properties")))
    && WellFormed(ObjectOrEmpty(Get(item, "assets")))
    && AssetsWellFormed(ObjectOrEmpty(Get(item, "assets")).at)
  }

  ghost predicate AssetsWellFormed(at: map<string, Json>) {
    forall k :: k in at && at[k].Obj? ==> WellFormed(at[k].fields)
  }

  lemma {:induction false} KeysInMap<V>(d: Dict<V>)
    requires WellFormed(d)
    ensures forall k :: k in d.keys <==> k in d.at
  {
    forall k
      ensures k in d.keys <==> k in d.at
    {
      assert k in Elems(d.keys) <==> k in d.keys;
    }
  }

  // The item before the draft-owned keys are put back.
  function Unowned(draft: Dict<Json>, produced: Dict<Json>, assets: Dict<Json>): Dict<Json> {
    var item := Put(draft, "properties", Obj(MergedProperties(draft, produced)));
    var item := WithGeometry(item, produced);
    var item := Put(item, "stac_extensions", StrArray(MergedExtensions(draft, produced)));
    Put(item, "assets", Obj(assets))
  }

  function MergedItem(draft: Dict<Json>, produced: Dict<Json>, assets: Dict<Json>): Dict<Json> {
    RestoreOwned(Unowned(draft, produced, assets), draft, DRAFT_OWNED)
  }

  function MergedFrom(draft: Dict<Json>, produced: Dict<Json>, gains: map<string, Dict<Json>>): Dict<Json> {
    MergedItem(draft, produced, MergedAssets(ObjectOrEmpty(Get(draft, "assets")), gains))
  }

  function ProducedMatching(produced: Dict<Json>, claim: Json -> Option<string>): Matching {
    MatchAll(ProducedAssets(produced).keys, ProducedAssets(produced).at, claim)
  }

  function ProducedGains(produced: Dict<Json>, claim: Json -> Option<string>): map<string, Dict<Json>> {
    Gains(ProducedMatching(produced, claim), ProducedAssets(produced).at)
  }

  function Claiming(lookup: Lookup, norm: string -> string): Json -> Option<string> {
    href => MatchKey(href, lookup, norm)
  }

  function ProducedAssets(produced: Dict<Json>): Dict<Json> {
    ObjectOrEmpty(Get(produced, "assets"))
  }

  function MergeSpec(draft: Dict<Json>, produced: Json, claim: Json -> Option<string>): Result<MergeResult, MergeError> {
    if !Get(draft, "assets").Obj? then Err(NoAssetsObject)
    else if !produced.Obj? then Err(NotAnItem)
    else
      Ok(MergeResult(MergedFrom(draft, produced.fields, ProducedGains(produced.fields, claim)),
                     ProducedMatching(produced.fields, claim).dropped))
  }

  /* ---------------------------------- the loops ---------------------------------- */

  method MatchProduced(assets: Dict<Json>, claim: Json -> Option<string>)
    returns (matched: map<string, Dict<Json>>, dropped: seq<Dropped>)
    ensures var m := MatchAll(assets.keys, assets.at, claim);
            dropped == m.dropped && matched == Gains(m, assets.at)
  {
    matched, dropped := map[], [];
    for n := 0 to |assets.keys|
      invariant dropped == MatchAll(assets.keys[..n], assets.at, claim).dropped
      invariant matched == Gains(MatchAll(assets.keys[..n], assets.at, claim), assets.at)
    {
      var key := assets.keys[n];
      assert assets.keys[..n + 1][..n] == assets.keys[..n];
      ghost var before := MatchAll(assets.keys[..n], assets.at, claim);
      var asset := At(assets.at, key);
      assert MatchAll(assets.keys[..n + 1], assets.at, claim) == MatchOne(before, key, asset, claim);
      if asset.Obj? {
        var href := Get(asset.fields, "href");
        var draftKey := claim(href);
        if draftKey.None? || draftKey.value in matched {
          var reason := if draftKey.None? then NoDraftAsset else AlreadyMatched(draftKey.value);
          dropped := dropped + [Dropped(key, href, reason)];
        } else {
          matched := matched[draftKey.value := Pop(asset.fields, "href")];
        }
      }
    }
    assert assets.keys[..|assets.keys|] == assets.keys;
  }

  method UnionExtensions(sources: seq<Json>) returns (extensions: seq<string>)
    requires |sources| == 2
    ensures extensions == AddNew(AddNew([], ItemsOrNone(sources[0])), ItemsOrNone(sources[1]))
  {
    extensions := [];
    for s := 0 to 2
      invariant s == 0 ==> extensions == []
      invariant s == 1 ==> extensions == AddNew([], ItemsOrNone(sources[0]))
      invariant s == 2 ==> extensions == AddNew(AddNew([], ItemsOrNone(sources[0])), ItemsOrNone(sources[1]))
    {
      if sources[s].Arr? {
        var items := sources[s].items;
        ghost var start := extensions;
        for n := 0 to |items|
          invariant extensions == AddNew(start, items[..n])
        {
          assert items[..n + 1][..n] == items[..n];
          if items[n].Str? && items[n].s !in extensions {
            extensions := extensions + [items[n].s];
          }
        }
        assert items[..|items|] == items;
      }
    }
  }

  // `assets` holds the first `n` draft assets, merged.
  ghost predicate MergedUpTo(draftAssets: Dict<Json>, matched: map<string, Dict<Json>>, n: nat, assets: Dict<Json>)
    requires n <= |draftAssets.keys|
  {
    && assets.keys == draftAssets.keys[..n]
    && assets.at.Keys == Elems(draftAssets.keys[..n])
    && forall k :: k in assets.at ==> assets.at[k] == MergedAsset(At(draftAssets.at, k), GainOf(matched, k))
  }

  lemma {:induction false} MergedOneMore(draftAssets: Dict<Json>, matched: map<string, Dict<Json>>, n: nat, assets: Dict<Json>, asset: Json)
    requires Distinct(draftAssets.keys) && n < |draftAssets.keys| && MergedUpTo(draftAssets, matched, n, assets)
    requires asset == MergedAsset(At(draftAssets.at, draftAssets.keys[n]), GainOf(matched, draftAssets.keys[n]))
    ensures MergedUpTo(draftAssets, matched, n + 1, Put(assets, draftAssets.keys[n], asset))
  {
    var key := draftAssets.keys[n];
    assert draftAssets.keys[..n + 1] == draftAssets.keys[..n] + [key];
    ElemsNext(draftAssets.keys[..n], key);
    assert key !in Elems(draftAssets.keys[..n]);
  }

  method MergeAssets(draftAssets: Dict<Json>, matched: map<string, Dict<Json>>) returns (assets: Dict<Json>)
    requires WellFormed(draftAssets)
    ensures assets == MergedAssets(draftAssets, matched)
  {
    assets := Empty();
    for n := 0 to |draftAssets.keys|
      invariant MergedUpTo(draftAssets, matched, n, assets)
    {
      var key := draftAssets.keys[n];
      var merged := MergeOneAsset(At(draftAssets.at, key), GainOf(matched, key));
      MergedOneMore(draftAssets, matched, n, assets, merged);
      assets := Put(assets, key, merged);
    }
    MergedAll(draftAssets, matched, assets);
  }

  lemma {:induction false} MergedAll(draftAssets: Dict<Json>, matched: map<string, Dict<Json>>, assets: Dict<Json>)
    requires WellFormed(draftAssets) && MergedUpTo(draftAssets, matched, |draftAssets.keys|, assets)
    ensures assets == MergedAssets(draftAssets, matched)
  {
    assert draftAssets.keys[..|draftAssets.keys|] == draftAssets.keys;
    SameMembers(draftAssets.at, matched, assets.at);
  }

  lemma {:induction false} SameMembers(at: map<string, Json>, matched: map<string, Dict<Json>>, merged: map<string, Json>)
    requires merged.Keys == at.Keys
    requires forall k :: k in merged ==> merged[k] == MergedAsset(At(at, k), GainOf(matched, k))
    ensures merged == MergedMembers(at, matched)
  {
    var want := MergedMembers(at, matched);
    forall k | k in want
      ensures merged[k] == want[k]
    {
      assert At(at, k) == at[k];
    }
    SameMap(merged, want);
  }

  method MergeOneAsset(draftAsset: Json, gained: Dict<Json>) returns (merged: Json)
    ensures merged == MergedAsset(draftAsset, gained)
  {
    var asset := ObjectOrEmpty(draftAsset);
    var href := Get(asset, "href");
    asset := Update(asset, gained);
    asset := Put(asset, "href", href);
    merged := Obj(asset);
  }

  method OverlayProperties(draft: Dict<Json>, produced: Dict<Json>) returns (props: Dict<Json>)
    ensures props == MergedProperties(draft, produced)
  {
    props := ObjectOrEmpty(Get(draft, "properties"));
    var theirs := Get(produced, "properties");
    if theirs.Obj? {
      props := Update(props, theirs.fields);
    }
    if Get(props, "datetime").Null? && Get(props, "start_datetime").Str? {
      props := Put(props, "datetime", Get(props, "start_datetime"));
    }
  }

  method KeepDraftOwned(item: Dict<Json>, draft: Dict<Json>) returns (merged: Dict<Json>)
    ensures merged == RestoreOwned(item, draft, DRAFT_OWNED)
  {
    merged := item;
    for n := 0 to |DRAFT_OWNED|
      invariant merged == RestoreOwned(item, draft, DRAFT_OWNED[..n])
    {
      assert DRAFT_OWNED[..n + 1][..n] == DRAFT_OWNED[..n];
      var key := DRAFT_OWNED[n];
      merged := if key in draft.at then Put(merged, key, draft.at[key]) else Pop(merged, key);
    }
    assert DRAFT_OWNED[..|DRAFT_OWNED|] == DRAFT_OWNED;
  }

  method MergeItem(draft: Dict<Json>, produced: Json, staged: Dict<string>, norm: string -> string)
    returns (r: Result<MergeResult, MergeError>)
    requires ItemWellFormed(draft)
    ensures r == MergeSpec(draft, produced, Claiming(LookupOf(staged, norm), norm))
  {
    if !Get(draft, "assets").Obj? {
      return Err(NoAssetsObject);
    }
    if !produced.Obj? {
      return Err(NotAnItem);
    }
    var theirs := produced.fields;
    var props := OverlayProperties(draft, theirs);
    var merged := Put(draft, "properties", Obj(props));
    if !Get(theirs, "geometry").Null? {
      merged := Put(merged, "geometry", Get(theirs, "geometry"));
      merged := Put(merged, "bbox", Get(theirs, "bbox"));
    } else if !Get(theirs, "bbox").Null? && Get(merged, "bbox").Null? {
      merged := Put(merged, "bbox", Get(theirs, "bbox"));
    }
    var extensions := UnionExtensions([Get(draft, "stac_extensions"), Get(theirs, "stac_extensions")]);
    merged := Put(merged, "stac_extensions", StrArray(extensions));
    var claim := Claiming(LookupOf(staged, norm), norm);
    var matched, dropped := MatchProduced(ProducedAssets(theirs), claim);
    var assets := MergeAssets(Get(draft, "assets").fields, matched);
    merged := Put(merged, "assets", Obj(assets));
    merged := KeepDraftOwned(merged, draft);
    r := Ok(MergeResult(merged, dropped));
  }

  /* ---------------------------------- accounting ---------------------------------- */

  predicate IsObject(at: map<string, Json>, k: string) {
    At(at, k).Obj?
  }

  // The draft key the produced asset `k` points at.
  function Claim(k: string, at: map<string, Json>, claim: Json -> Option<string>): Option<string> {
    if IsObject(at, k) then claim(Get(At(at, k).fields, "href")) else None
  }

  predicate Won(k: string, at: map<string, Json>, m: Matching, claim: Json -> Option<string>) {
    var c := Claim(k, at, claim);
    c.Some? && c.value in m.winners && m.winners[c.value] == k
  }

  predicate Lost(k: string, at: map<string, Json>, m: Matching, claim: Json -> Option<string>) {
    IsObject(at, k) && !Won(k, at, m, claim)
  }

  function Losing(at: map<string, Json>, m: Matching, claim: Json -> Option<string>): string -> bool {
    k => Lost(k, at, m, claim)
  }

  function Objects(at: map<string, Json>): string -> bool {
    k => IsObject(at, k)
  }

  // `i` is the first position whose produced asset points at `dk`.
  ghost predicate FirstClaim(keys: seq<string>, i: nat, at: map<string, Json>, claim: Json -> Option<string>, dk: string) {
    && i < |keys| && Claim(keys[i], at, claim) == Some(dk)
    && forall j :: 0 <= j < i ==> Claim(keys[j], at, claim) != Some(dk)
  }

  /** A draft key is matched exactly when some produced asset points at it, and it is
      matched by the first that does. */
  lemma {:induction false} FirstInOrderWins(keys: seq<string>, at: map<string, Json>, claim: Json -> Option<string>, dk: string)
    ensures var m := MatchAll(keys, at, claim);
            if dk in m.winners then exists i: nat :: FirstClaim(keys, i, at, claim, dk) && keys[i] == m.winners[dk]
            else forall i :: 0 <= i < |keys| ==> Claim(keys[i], at, claim) != Some(dk)
  {
    if keys != [] {
      var n := |keys| - 1;
      var front, last := keys[..n], keys[n];
      FirstInOrderWins(front, at, claim, dk);
      var before, m := MatchAll(front, at, claim), MatchAll(keys, at, claim);
      assert m == MatchOne(before, last, At(at, last), claim);
      if dk in before.winners {
        var i: nat :| FirstClaim(front, i, at, claim, dk) && front[i] == before.winners[dk];
        assert FirstClaim(keys, i, at, claim, dk);
      } else if dk in m.winners {
        assert FirstClaim(keys, n, at, claim, dk);
      }
    }
  }

  /** Two draft keys are never matched by the same produced asset. */
  lemma {:induction false} WinnersInjective(keys: seq<string>, at: map<string, Json>, claim: Json -> Option<string>, a: string, b: string)
    requires a in MatchAll(keys, at, claim).winners && b in MatchAll(keys, at, claim).winners
    requires MatchAll(keys, at, claim).winners[a] == MatchAll(keys, at, claim).winners[b]
    ensures a == b
  {
    FirstInOrderWins(keys, at, claim, a);
    FirstInOrderWins(keys, at, claim, b);
  }

  function KeysOf(dropped: seq<Dropped>): seq<string> {
    Map(dropped, (d: Dropped) => d.key)
  }

  // A later asset does not change who lost before it.
  lemma {:induction false} LosersStay(keys: seq<string>, last: string, at: map<string, Json>, claim: Json -> Option<string>, k: string)
    requires k in keys && last !in keys
    ensures var before := MatchAll(keys, at, claim);
            Lost(k, at, before, claim) == Lost(k, at, MatchOne(before, last, At(at, last), claim), claim)
  {
    var c := Claim(k, at, claim);
    if c.Some? {
      FirstInOrderWins(keys, at, claim, c.value);
    }
  }

  lemma {:induction false} LastLosesOrWins(keys: seq<string>, last: string, at: map<string, Json>, claim: Json -> Option<string>)
    requires last !in keys
    ensures var before := MatchAll(keys, at, claim);
            var m := MatchOne(before, last, At(at, last), claim);
            KeysOf(m.dropped) == KeysOf(before.dropped) + if Lost(last, at, m, claim) then [last] else []
  {
    var before := MatchAll(keys, at, claim);
    var c := Claim(last, at, claim);
    if c.Some? {
      FirstInOrderWins(keys, at, claim, c.value);
    }
    LastReported(before, MatchOne(before, last, At(at, last), claim), last, At(at, last), claim);
  }

  /** Every produced asset object is matched or reported, never both: the report
      lists, in order, exactly the objects that did not win a draft key, each once. */
  lemma {:induction false} DroppedAreTheLosers(keys: seq<string>, at: map<string, Json>, claim: Json -> Option<string>)
    requires Distinct(keys)
    ensures KeysOf(MatchAll(keys, at, claim).dropped) == Filter(keys, Losing(at, MatchAll(keys, at, claim), claim))
  {
    if keys != [] {
      var n := |keys| - 1;
      var front, last := keys[..n], keys[n];
      DroppedAreTheLosers(front, at, claim);
      var before, m := MatchAll(front, at, claim), MatchAll(keys, at, claim);
      assert keys == front + [last] && last !in front;
      forall k | k in front
        ensures Losing(at, before, claim)(k) == Losing(at, m, claim)(k)
      {
        LosersStay(front, last, at, claim, k);
      }
      FilterSame(front, Losing(at, before, claim), Losing(at, m, claim));
      FilterLast(front, last, Losing(at, m, claim));
      LastLosesOrWins(front, last, at, claim);
    }
  }

  lemma {:induction false} LastReported(before: Matching, m: Matching, last: string, asset: Json, claim: Json -> Option<string>)
    requires m == MatchOne(before, last, asset, claim)
    ensures KeysOf(m.dropped) == if m.dropped == before.dropped then KeysOf(before.dropped) else KeysOf(before.dropped) + [last]
    ensures m.dropped == before.dropped <==> |m.dropped| == |before.dropped|
  {
  }

  /** Each report line names the asset's own href and why it was dropped. */
  lemma {:induction false} DroppedForTheReason(keys: seq<string>, at: map<string, Json>, claim: Json -> Option<string>)
    ensures forall d :: d in MatchAll(keys, at, claim).dropped ==>
              && IsObject(at, d.key) && d.href == Get(At(at, d.key).fields, "href")
              && (d.reason == NoDraftAsset <==> Claim(d.key, at, claim) == None)
              && (d.reason.AlreadyMatched? ==> Claim(d.key, at, claim) == Some(d.reason.draftKey)
                                               && d.reason.draftKey in MatchAll(keys, at, claim).winners)
  {
    if keys != [] {
      var n := |keys| - 1;
      DroppedForTheReason(keys[..n], at, claim);
      var before, m := MatchAll(keys[..n], at, claim), MatchAll(keys, at, claim);
      assert m == MatchOne(before, keys[n], At(at, keys[n]), claim);
    }
  }

  /** Matched plus dropped is the number of produced asset objects. */
  lemma {:induction false} MatchedPlusDropped(keys: seq<string>, at: map<string, Json>, claim: Json -> Option<string>)
    ensures var m := MatchAll(keys, at, claim); |m.winners| + |m.dropped| == |Filter(keys, Objects(at))|
  {
    if keys != [] {
      var n := |keys| - 1;
      MatchedPlusDropped(keys[..n], at, claim);
      assert keys == keys[..n] + [keys[n]];
      FilterLast(keys[..n], keys[n], Objects(at));
      OneMoreCounted(MatchAll(keys[..n], at, claim), keys[n], At(at, keys[n]), claim);
    }
  }

  lemma {:induction false} OneMoreCounted(m: Matching, key: string, asset: Json, claim: Json -> Option<string>)
    ensures var next := MatchOne(m, key, asset, claim);
            |next.winners| + |next.dropped| == |m.winners| + |m.dropped| + if asset.Obj? then 1 else 0
  {
  }

  /* ---------------------------------- what a merge keeps ---------------------------------- */

  lemma {:induction false} OwnedAlreadyKept(item: Dict<Json>, draft: Dict<Json>, owned: seq<string>)
    requires forall k :: k in owned ==> (k in item.at <==> k in draft.at) && At(item.at, k) == At(draft.at, k)
    ensures RestoreOwned(item, draft, owned) == item
  {
    if owned != [] {
      var front, key := owned[..|owned| - 1], owned[|owned| - 1];
      OwnedAlreadyKept(item, draft, front);
      assert key in owned;
      if key in draft.at {
        PutSame(item, key, draft.at[key]);
      }
    }
  }

  lemma {:induction false} UnownedFrame(draft: Dict<Json>, produced: Dict<Json>, assets: Dict<Json>)
    ensures var item := Unowned(draft, produced, assets);
            forall k :: k !in MERGED_KEYS ==> (k in item.at <==> k in draft.at) && At(item.at, k) == At(draft.at, k)
  {
  }

  lemma {:induction false} MergedItemIs(draft: Dict<Json>, produced: Dict<Json>, assets: Dict<Json>)
    ensures MergedItem(draft, produced, assets) == Unowned(draft, produced, assets)
  {
    UnownedFrame(draft, produced, assets);
    var item := Unowned(draft, produced, assets);
    forall k | k in DRAFT_OWNED
      ensures (k in item.at <==> k in draft.at) && At(item.at, k) == At(draft.at, k)
    {
      DraftOwnedIsFramed(k);
    }
    OwnedAlreadyKept(item, draft, DRAFT_OWNED);
  }

  // The ids a frame must keep are all outside the merged keys.
  lemma {:induction false} DraftOwnedIsFramed(k: string)
    requires k in DRAFT_OWNED
    ensures k !in MERGED_KEYS
  {
  }

  /** The frame of a merge: outside the five merged keys the draft is untouched, the
      assets are exactly the draft's, and every asset's href is the draft's own. */
  lemma {:induction false} MergeFrame(draft: Dict<Json>, produced: Json, claim: Json -> Option<string>)
    requires MergeSpec(draft, produced, claim).Ok?
    ensures var item := MergeSpec(draft, produced, claim).value.item;
            && (forall k :: k !in MERGED_KEYS ==> (k in item.at <==> k in draft.at) && At(item.at, k) == At(draft.at, k))
            && Get(item, "assets").Obj?
            && Get(item, "assets").fields.keys == Get(draft, "assets").fields.keys
            && Get(item, "assets").fields.at.Keys == Get(draft, "assets").fields.at.Keys
            && forall k :: k in Get(draft, "assets").fields.at ==>
                 && Get(item, "assets").fields.at[k].Obj?
                 && Get(Get(item, "assets").fields.at[k].fields, "href")
                    == Get(ObjectOrEmpty(Get(draft, "assets").fields.at[k]), "href")
  {
    var merged := MergedAssets(Get(draft, "assets").fields, ProducedGains(produced.fields, claim));
    MergedItemIs(draft, produced.fields, merged);
    UnownedFrame(draft, produced.fields, merged);
  }

  /** Geometry and box: a produced geometry replaces both, a produced box alone only
      fills a missing one. */
  lemma {:induction false} GeometryAndBox(draft: Dict<Json>, produced: Json, claim: Json -> Option<string>)
    requires MergeSpec(draft, produced, claim).Ok?
    ensures var item, theirs := MergeSpec(draft, produced, claim).value.item, produced.fields;
            && Get(item, "geometry") == (if Get(theirs, "geometry").Null? then Get(draft, "geometry") else Get(theirs, "geometry"))
            && Get(item, "bbox") == (if !Get(theirs, "geometry").Null? || Get(draft, "bbox").Null? then Get(theirs, "bbox") else Get(draft, "bbox"))
  {
    MergedItemIs(draft, produced.fields, MergedAssets(Get(draft, "assets").fields, ProducedGains(produced.fields, claim)));
  }

  lemma {:induction false} OneAssetGains(draftAsset: Json, gained: Dict<Json>, member: string)
    requires member != "href"
    ensures var merged := MergedAsset(draftAsset, gained);
            merged.Obj? && Get(merged.fields, member)
                           == if member in gained.at then gained.at[member] else Get(ObjectOrEmpty(draftAsset), member)
  {
  }

  lemma {:induction false} GainIs(at: map<string, Json>, m: Matching, key: string, member: string)
    requires member != "href"
    ensures var gained := GainOf(Gains(m, at), key);
            && (member in gained.at <==> key in m.winners && member in ObjectOrEmpty(At(at, m.winners[key])).at)
            && (member in gained.at ==> gained.at[member] == ObjectOrEmpty(At(at, m.winners[key])).at[member])
  {
  }

  /** A matched asset gains exactly the produced metadata but the href; every other
      member of every asset is the draft's. */
  lemma {:induction false} AssetsGainMetadata(draftAssets: Dict<Json>, at: map<string, Json>, m: Matching, key: string, member: string)
    requires key in draftAssets.at && member != "href"
    ensures var merged := MergedAssets(draftAssets, Gains(m, at)).at[key];
            var mine := ObjectOrEmpty(draftAssets.at[key]);
            merged.Obj? &&
            Get(merged.fields, member) ==
              if key in m.winners && member in ObjectOrEmpty(At(at, m.winners[key])).at
              then ObjectOrEmpty(At(at, m.winners[key])).at[member] else Get(mine, member)
  {
    var gained := GainOf(Gains(m, at), key);
    OneAssetGains(draftAssets.at[key], gained, member);
    GainIs(at, m, key, member);
    assert MergedAssets(draftAssets, Gains(m, at)).at[key] == MergedAsset(draftAssets.at[key], gained);
  }

  /** Properties: the package's value wins, the draft's survives, and a null datetime
      becomes the start datetime. */
  lemma {:induction false} PropertiesOverlay(draft: Dict<Json>, produced: Dict<Json>, k: string)
    ensures var props := MergedProperties(draft, produced);
            var mine, theirs := ObjectOrEmpty(Get(draft, "properties")), ObjectOrEmpty(Get(produced, "properties"));
            var overlaid := if k in theirs.at then theirs.at[k] else Get(mine, k);
            var start := if "start_datetime" in theirs.at then theirs.at["start_datetime"] else Get(mine, "start_datetime");
            Get(props, k) == if k == "datetime" && overlaid.Null? && start.Str? then start else overlaid
  {
  }

  lemma {:induction false} AddNewUnion(acc: seq<string>, items: seq<Json>)
    requires Distinct(acc)
    ensures var r := AddNew(acc, items);
            && Distinct(r) && acc <= r
            && forall x :: x in r <==> x in acc || Str(x) in items
  {
    if items != [] {
      var front, last := items[..|items| - 1], items[|items| - 1];
      AddNewUnion(acc, front);
      assert items == front + [last];
    }
  }

  /** Extensions: the union of both lists' strings, each once. */
  lemma {:induction false} ExtensionsUnion(draft: Dict<Json>, produced: Dict<Json>)
    ensures var r := MergedExtensions(draft, produced);
            && Distinct(r)
            && forall x :: x in r <==> Str(x) in ItemsOrNone(Get(draft, "stac_extensions"))
                                       || Str(x) in ItemsOrNone(Get(produced, "stac_extensions"))
  {
    AddNewUnion([], ItemsOrNone(Get(draft, "stac_extensions")));
    AddNewUnion(AddNew([], ItemsOrNone(Get(draft, "stac_extensions"))), ItemsOrNone(Get(produced, "stac_extensions")));
  }

  /* ---------------------------------- idempotence ---------------------------------- */

  // After a filled-in datetime, the same overlay either brings the null back or leaves it filled.
  lemma {:induction false} RefilledOverlay(once: Dict<Json>, theirs: Dict<Json>, start: Json)
    requires WellFormed(theirs) && theirs.at.Keys <= once.at.Keys && once.at + theirs.at == once.at
    requires Get(once, "datetime").Null?
    ensures var props := Put(once, "datetime", start);
            Update(props, theirs) == if "datetime" in theirs.at then Dict(props.keys, once.at) else props
  {
    var props := Put(once, "datetime", start);
    UpdateCovered(props, theirs);
    if "datetime" in theirs.at {
      assert props.at + theirs.at == once.at;
    } else {
      assert props.at + theirs.at == props.at;
    }
  }

  lemma {:induction false} OverlayTwice(base: Dict<Json>, theirs: Dict<Json>)
    requires WellFormed(theirs)
    ensures var props := DatetimeOrStart(Update(base, theirs)); DatetimeOrStart(Update(props, theirs)) == props
  {
    var once := Update(base, theirs);
    UpdateTwice(base, theirs);
    var props := DatetimeOrStart(once);
    if props == once {
    } else {
      assert once.at + theirs.at == once.at;
      RefilledOverlay(once, theirs, Get(once, "start_datetime"));
      if "datetime" in theirs.at {
        assert "datetime" in once.at;
        assert Dict(props.keys, once.at) == once;
      }
    }
  }

  lemma {:induction false} PropertiesTwice(draft: Dict<Json>, again: Dict<Json>, produced: Dict<Json>)
    requires WellFormed(ObjectOrEmpty(Get(produced, "properties")))
    requires Get(again, "properties") == Obj(MergedProperties(draft, produced))
    ensures MergedProperties(again, produced) == MergedProperties(draft, produced)
  {
    var base, theirs := ObjectOrEmpty(Get(draft, "properties")), Get(produced, "properties");
    if theirs.Obj? {
      OverlayTwice(base, theirs.fields);
    }
  }

  lemma {:induction false} AddKnown(acc: seq<string>, items: seq<Json>)
    requires forall j :: j in items && j.Str? ==> j.s in acc
    ensures AddNew(acc, items) == acc
  {
    if items != [] {
      AddKnown(acc, items[..|items| - 1]);
      assert items[|items| - 1] in items;
    }
  }

  lemma {:induction false} DistinctPrefix<T>(s: seq<T>, n: nat)
    requires Distinct(s) && n <= |s|
    ensures Distinct(s[..n])
  {
  }

  lemma {:induction false} AddAll(acc: seq<string>, more: seq<string>)
    requires Distinct(acc + more)
    ensures AddNew(acc, StrArray(more).items) == acc + more
  {
    if more == [] {
      assert acc + more == acc;
    } else {
      var n := |more| - 1;
      var front, last := more[..n], more[n];
      assert acc + more == (acc + front) + [last];
      assert StrArray(more).items[..n] == StrArray(front).items;
      assert (acc + more)[..|acc + front|] == acc + front;
      DistinctPrefix(acc + more, |acc + front|);
      AddAll(acc, front);
      assert (acc + more)[|acc + front|] == last;
    }
  }

  lemma {:induction false} ExtensionsTwice(draft: Dict<Json>, again: Dict<Json>, produced: Dict<Json>)
    requires Get(again, "stac_extensions") == StrArray(MergedExtensions(draft, produced))
    ensures MergedExtensions(again, produced) == MergedExtensions(draft, produced)
  {
    var r := MergedExtensions(draft, produced);
    ExtensionsUnion(draft, produced);
    assert [] + r == r;
    AddAll([], r);
    AddKnown(r, ItemsOrNone(Get(produced, "stac_extensions")));
  }

  lemma {:induction false} AssetTwice(draftAsset: Json, gained: Dict<Json>)
    requires WellFormed(gained) && "href" !in gained.at
    ensures MergedAsset(MergedAsset(draftAsset, gained), gained) == MergedAsset(draftAsset, gained)
  {
    var asset := ObjectOrEmpty(draftAsset);
    var once := Put(Update(asset, gained), "href", Get(asset, "href"));
    UpdateTwice(asset, gained);
    UpdateCovered(once, gained);
    assert once.at + gained.at == once.at;
    PutSame(once, "href", Get(asset, "href"));
  }

  lemma {:induction false} PopWellFormed(d: Dict<Json>, k: string)
    requires WellFormed(d)
    ensures WellFormed(Pop(d, k)) && k !in Pop(d, k).at
  {
    FilterDistinct(d.keys, Other(k));
    KeysInMap(d);
  }

  lemma {:induction false} AssetsTwice(draftAssets: Dict<Json>, gains: map<string, Dict<Json>>)
    requires forall k :: k in gains ==> WellFormed(gains[k]) && "href" !in gains[k].at
    ensures MergedAssets(MergedAssets(draftAssets, gains), gains) == MergedAssets(draftAssets, gains)
  {
    var once := MergedMembers(draftAssets.at, gains);
    var twice := MergedMembers(once, gains);
    forall k | k in once
      ensures twice[k] == once[k]
    {
      AssetTwice(draftAssets.at[k], GainOf(gains, k));
    }
    SameMap(twice, once);
  }

  lemma {:induction false} GainsWellFormed(produced: Dict<Json>, claim: Json -> Option<string>)
    requires ItemWellFormed(produced)
    ensures var gains := ProducedGains(produced, claim);
            forall k :: k in gains ==> WellFormed(gains[k]) && "href" !in gains[k].at
  {
    var at, m := ProducedAssets(produced).at, ProducedMatching(produced, claim);
    forall k | k in m.winners
      ensures WellFormed(Gains(m, at)[k]) && "href" !in Gains(m, at)[k].at
    {
      PopWellFormed(ObjectOrEmpty(At(at, m.winners[k])), "href");
    }
  }

  lemma {:induction false} UnownedMembers(draft: Dict<Json>, produced: Dict<Json>, assets: Dict<Json>)
    ensures var item := Unowned(draft, produced, assets);
            && Get(item, "properties") == Obj(MergedProperties(draft, produced)) && "properties" in item.at
            && Get(item, "stac_extensions") == StrArray(MergedExtensions(draft, produced)) && "stac_extensions" in item.at
            && Get(item, "assets") == Obj(assets) && "assets" in item.at
            && (!Get(produced, "geometry").Null? ==>
                  "geometry" in item.at && item.at["geometry"] == Get(produced, "geometry")
                  && "bbox" in item.at && item.at["bbox"] == Get(produced, "bbox"))
            && (Get(produced, "geometry").Null? && !Get(produced, "bbox").Null? ==> !Get(item, "bbox").Null?)
  {
  }

  lemma {:induction false} UnownedTwice(item: Dict<Json>, draft: Dict<Json>, produced: Dict<Json>, assets: Dict<Json>)
    requires item == Unowned(draft, produced, assets)
    requires MergedProperties(item, produced) == MergedProperties(draft, produced)
    requires MergedExtensions(item, produced) == MergedExtensions(draft, produced)
    ensures Unowned(item, produced, assets) == item
  {
    UnownedMembers(draft, produced, assets);
    PutSame(item, "properties", Obj(MergedProperties(item, produced)));
    if !Get(produced, "geometry").Null? {
      PutSame(item, "geometry", Get(produced, "geometry"));
      PutSame(item, "bbox", Get(produced, "bbox"));
    }
    PutSame(item, "stac_extensions", StrArray(MergedExtensions(item, produced)));
    PutSame(item, "assets", Obj(assets));
  }

  lemma {:induction false} ItemTwice(draft: Dict<Json>, produced: Dict<Json>, gains: map<string, Dict<Json>>)
    requires Get(draft, "assets").Obj?
    requires WellFormed(ObjectOrEmpty(Get(produced, "properties")))
    requires forall k :: k in gains ==> WellFormed(gains[k]) && "href" !in gains[k].at
    ensures var item := MergedFrom(draft, produced, gains);
            Get(item, "assets").Obj? && MergedFrom(item, produced, gains) == item
  {
    var assets := MergedAssets(Get(draft, "assets").fields, gains);
    var item := Unowned(draft, produced, assets);
    MergedItemIs(draft, produced, assets);
    UnownedMembers(draft, produced, assets);
    PropertiesTwice(draft, item, produced);
    ExtensionsTwice(draft, item, produced);
    AssetsTwice(Get(draft, "assets").fields, gains);
    MergedItemIs(item, produced, assets);
    UnownedTwice(item, draft, produced, assets);
  }

  /** Merging the same produced item onto the merge's own result gives the same item
      and the same report. */
  lemma {:induction false} MergeIdempotent(draft: Dict<Json>, produced: Json, claim: Json -> Option<string>)
    requires produced.Obj? ==> ItemWellFormed(produced.fields)
    requires MergeSpec(draft, produced, claim).Ok?
    ensures MergeSpec(MergeSpec(draft, produced, claim).value.item, produced, claim) == MergeSpec(draft, produced, claim)
  {
    GainsWellFormed(produced.fields, claim);
    ItemTwice(draft, produced.fields, ProducedGains(produced.fields, claim));
  }

  /* ---------------------------------- staging and the lookups ---------------------------------- */

  // No two staged assets land on one path.
  ghost predicate TargetsDistinct(keys: seq<string>, at: map<string, Json>, directory: string) {
    forall a, b :: a in keys && b in keys && a != b && Stageable(At(at, a)) && Stageable(At(at, b))
      ==> Target(directory, a, At(at, a)) != Target(directory, b, At(at, b))
  }

  // Nor, seen through `f`, on two paths that look the same.
  ghost predicate TargetsApart(keys: seq<string>, at: map<string, Json>, directory: string, f: string -> string) {
    forall a, b :: a in keys && b in keys && a != b && Stageable(At(at, a)) && Stageable(At(at, b))
      ==> f(Target(directory, a, At(at, a))) != f(Target(directory, b, At(at, b)))
  }

  // `paths` is what staging `keys` leaves behind.
  ghost predicate StagesTo(keys: seq<string>, at: map<string, Json>, directory: string, paths: Dict<string>) {
    && WellFormed(paths)
    && (forall k :: k in paths.at <==> k in keys && Stageable(At(at, k)))
    && (forall k :: k in paths.at ==> paths.at[k] == Target(directory, k, At(at, k)))
    && TargetsDistinct(keys, at, directory)
  }

  lemma {:induction false} DistinctOneMore(keys: seq<string>, last: string, at: map<string, Json>, directory: string, paths: Dict<string>)
    requires StagesTo(keys, at, directory, paths) && !Taken(paths, Target(directory, last, At(at, last)))
    ensures TargetsDistinct(keys + [last], at, directory)
  {
    forall a | a in keys && Stageable(At(at, a))
      ensures Target(directory, a, At(at, a)) != Target(directory, last, At(at, last))
    {
      assert paths.at[a] in paths.at.Values;
    }
  }

  lemma {:induction false} StagesOneMore(keys: seq<string>, last: string, at: map<string, Json>, directory: string, paths: Dict<string>)
    requires last !in keys && StagesTo(keys, at, directory, paths)
    requires Stageable(At(at, last)) && !Taken(paths, Target(directory, last, At(at, last)))
    ensures StagesTo(keys + [last], at, directory, Put(paths, last, Target(directory, last, At(at, last))))
  {
    PutWellFormed(paths, last, Target(directory, last, At(at, last)));
    DistinctOneMore(keys, last, at, directory, paths);
  }

  lemma {:induction false} StagesSkip(keys: seq<string>, last: string, at: map<string, Json>, directory: string, paths: Dict<string>)
    requires !Stageable(At(at, last)) && StagesTo(keys, at, directory, paths)
    ensures StagesTo(keys + [last], at, directory, paths)
  {
  }

  /** Staging succeeds only with every staged asset on a path of its own. */
  lemma {:induction false} StagedOnOwnPaths(keys: seq<string>, at: map<string, Json>, directory: string, downloads: string -> bool)
    requires Distinct(keys) && StagedSpec(keys, at, directory, downloads).Ok?
    ensures StagesTo(keys, at, directory, StagedSpec(keys, at, directory, downloads).value)
  {
    if keys != [] {
      var n := |keys| - 1;
      var front, last := keys[..n], keys[n];
      assert keys == front + [last];
      StagedOnOwnPaths(front, at, directory, downloads);
      var paths := StagedSpec(front, at, directory, downloads).value;
      var r := StagedSpec(keys, at, directory, downloads);
      assert r == StageOne(paths, last, At(at, last), directory, downloads);
      StagesNext(front, last, at, directory, downloads, paths);
    }
  }

  lemma {:induction false} StagesNext(keys: seq<string>, last: string, at: map<string, Json>, directory: string, downloads: string -> bool, paths: Dict<string>)
    requires last !in keys && StagesTo(keys, at, directory, paths)
    requires StageOne(paths, last, At(at, last), directory, downloads).Ok?
    ensures StagesTo(keys + [last], at, directory, StageOne(paths, last, At(at, last), directory, downloads).value)
  {
    if Stageable(At(at, last)) {
      StagesOneMore(keys, last, at, directory, paths);
    } else {
      StagesSkip(keys, last, at, directory, paths);
    }
  }

  // The manifest says where the asset's bytes are, in a bucket and under a key.
  ghost predicate SaysWhere(asset: Json) {
    exists fields, bucket, key :: asset == Obj(fields) && "bucket" in fields.at && "key" in fields.at
      && fields.at["bucket"] == bucket && Truthy(bucket) && fields.at["key"] == key && Truthy(key)
  }

  // The file name of the storage key, without trailing slashes; the asset's own key when
  // that leaves none.
  ghost predicate StagedName(asset: Json, own: string, name: string) {
    if exists fields, key, path, slashes, file :: asset == Obj(fields) && "key" in fields.at && fields.at["key"] == Str(key)
         && key == path + slashes && AllSlashes(slashes) && FileName(path, file) && file != "" then
      exists fields, key, path, slashes :: asset == Obj(fields) && "key" in fields.at && fields.at["key"] == Str(key)
        && key == path + slashes && AllSlashes(slashes) && FileName(path, name) && name != ""
    else name == own
  }

  lemma {:induction false} TrimmedName(key: string, path: string, slashes: string, name: string)
    requires key == path + slashes && AllSlashes(slashes) && FileName(path, name) && name != ""
    ensures Basename(TrimEnd(key, '/')) == name
  {
    EndsInName(path, name);
    TrimmedSlashes(path, slashes);
    BasenameExactly(path, name);
  }

  lemma {:induction false} StagedNameExactly(asset: Json, own: string)
    ensures StagedName(asset, own, Filename(ObjectOrEmpty(asset), own))
  {
    var key := Get(ObjectOrEmpty(asset), "key");
    if asset.Obj? && key.Str? {
      var path := TrimEnd(key.s, '/');
      TrimmedIs(key.s);
      assert key.s == path + key.s[|path|..];
      BasenameExactly(path, Basename(path));
      forall p, slashes, file | key.s == p + slashes && AllSlashes(slashes) && FileName(p, file) && file != ""
        ensures Basename(path) == file
      {
        TrimmedName(key.s, p, slashes, file);
      }
    }
  }

  /** What is staged: exactly the assets whose place the manifest says, each joined to the
      directory under its file name. */
  lemma {:induction false} StagedExactly(keys: seq<string>, at: map<string, Json>, directory: string, downloads: string -> bool)
    requires Distinct(keys) && StagedSpec(keys, at, directory, downloads).Ok?
    ensures var paths := StagedSpec(keys, at, directory, downloads).value;
            && (forall k :: k in paths.at <==> k in keys && SaysWhere(At(at, k)))
            && (forall k :: k in paths.at ==>
                  downloads(paths.at[k]) && exists name :: StagedName(At(at, k), k, name) && paths.at[k] == JoinPath(directory, name))
  {
    var paths := StagedSpec(keys, at, directory, downloads).value;
    StagedOnOwnPaths(keys, at, directory, downloads);
    StagedAreDownloaded(keys, at, directory, downloads);
    forall k
      ensures Stageable(At(at, k)) <==> SaysWhere(At(at, k))
    {
    }
    forall k | k in paths.at
      ensures exists name :: StagedName(At(at, k), k, name) && paths.at[k] == JoinPath(directory, name)
    {
      StagedNameExactly(At(at, k), k);
    }
  }

  lemma {:induction false} StagedAreDownloaded(keys: seq<string>, at: map<string, Json>, directory: string, downloads: string -> bool)
    requires StagedSpec(keys, at, directory, downloads).Ok?
    ensures forall k :: k in StagedSpec(keys, at, directory, downloads).value.at ==> downloads(StagedSpec(keys, at, directory, downloads).value.at[k])
  {
    if keys != [] {
      StagedAreDownloaded(keys[..|keys| - 1], at, directory, downloads);
    }
  }

  /** Joining adds one component after the other, and skips empty ones and single dots. */
  lemma {:induction false} ComponentsAdd(path: string, a: seq<string>, b: seq<string>, x: string)
    ensures AppendComponents(path, a + b) == AppendComponents(AppendComponents(path, a), b)
    ensures AppendComponents(path, [x]) == if x == "" || x == "." then path else path + "/" + x
    decreases |a|
  {
    assert [x][1..] == [];
    assert AppendComponents(path + "/" + x, []) == path + "/" + x;
    if a == [] {
      assert a + b == b;
    } else {
      assert (a + b)[0] == a[0] && (a + b)[1..] == a[1..] + b;
      ComponentsAdd(if a[0] == "" || a[0] == "." then path else path + "/" + a[0], a[1..], b, x);
    }
  }

  /** And when every download works, it fails only for a repeated path. */
  lemma {:induction false} StagingRefusesOnlyRepeats(keys: seq<string>, at: map<string, Json>, directory: string, downloads: string -> bool)
    requires Distinct(keys) && (forall t :: downloads(t))
    ensures StagedSpec(keys, at, directory, downloads).Ok? <==> TargetsDistinct(keys, at, directory)
  {
    if keys != [] {
      var n := |keys| - 1;
      var front, last := keys[..n], keys[n];
      assert keys == front + [last];
      StagingRefusesOnlyRepeats(front, at, directory, downloads);
      var r := StagedSpec(front, at, directory, downloads);
      if r.Ok? {
        StagedOnOwnPaths(front, at, directory, downloads);
        var target := Target(directory, last, At(at, last));
        if Stageable(At(at, last)) && Taken(r.value, target) {
          var a :| a in r.value.at && r.value.at[a] == target;
          assert a in front && a in keys && last in keys;
        } else if Stageable(At(at, last)) {
          StagedOnOwnPaths(keys, at, directory, downloads);
        }
      } else {
        var a, b :| a in front && b in front && a != b && Stageable(At(at, a)) && Stageable(At(at, b))
          && Target(directory, a, At(at, a)) == Target(directory, b, At(at, b));
        assert a in keys && b in keys;
      }
    }
  }

  /** A lookup whose index is one to one on the staged paths shadows no staged key. */
  lemma {:induction false} IndexFindsEachKey(keys: seq<string>, at: map<string, string>, f: string -> string)
    requires forall a, b :: a in keys && b in keys && a != b ==> a in at && b in at && f(at[a]) != f(at[b])
    requires forall k :: k in keys ==> k in at
    ensures forall k :: k in keys ==> f(at[k]) in IndexBy(keys, at, f) && IndexBy(keys, at, f)[f(at[k])] == k
  {
    if keys != [] {
      var n := |keys| - 1;
      assert keys == keys[..n] + [keys[n]];
      IndexFindsEachKey(keys[..n], at, f);
    }
  }

  lemma {:induction false} IndexOnlyKeys(keys: seq<string>, at: map<string, string>, f: string -> string)
    ensures forall v :: v in IndexBy(keys, at, f) ==>
              IndexBy(keys, at, f)[v] in keys && IndexBy(keys, at, f)[v] in at && f(at[IndexBy(keys, at, f)[v]]) == v
  {
    if keys != [] {
      var n := |keys| - 1;
      assert keys == keys[..n] + [keys[n]];
      IndexOnlyKeys(keys[..n], at, f);
    }
  }

  lemma {:induction false} BasenameOfJoined(directory: string, name: string)
    requires '/' !in name
    ensures Basename(directory + "/" + name) == name
  {
    var path := directory + "/" + name;
    if name != "" {
      var n := |name| - 1;
      assert path[..|path| - 1] == directory + "/" + name[..n];
      BasenameOfJoined(directory, name[..n]);
    }
  }

  lemma {:induction false} PlainJoin(directory: string, name: string)
    requires PlainName(name)
    ensures JoinPath(directory, name) == directory + "/" + name
    ensures Basename(JoinPath(directory, name)) == name
  {
    SplitJoined(name, "", '/');
    assert AppendComponents(directory + "/" + name, [name][1..]) == directory + "/" + name;
    BasenameOfJoined(directory, name);
  }

  /* ---- where an href leads ---- */

  // `name` is what follows the path's last slash.
  ghost predicate FileName(path: string, name: string) {
    '/' !in name && (path == name || exists directory :: path == directory + "/" + name)
  }

  lemma {:induction false} BasenameExactly(path: string, name: string)
    ensures Basename(path) == name <==> FileName(path, name)
  {
    BasenameSplits(path);
    if FileName(path, name) {
      if path == name {
        BasenameOfPlain(name);
      } else {
        var directory :| path == directory + "/" + name;
        BasenameOfJoined(directory, name);
      }
    }
  }

  lemma {:induction false} BasenameSplits(path: string)
    ensures FileName(path, Basename(path))
  {
    if path != "" {
      var n := |path| - 1;
      var front, last := path[..n], path[n];
      assert path == front + [last];
      if last == '/' {
        NoName(front);
      } else {
        BasenameSplits(front);
        LongerName(front, Basename(front), last);
      }
    }
  }

  lemma {:induction false} NoName(directory: string)
    ensures FileName(directory + "/", "")
  {
    assert directory + "/" == directory + "/" + "";
  }

  lemma {:induction false} LongerName(path: string, name: string, c: char)
    requires FileName(path, name) && c != '/'
    ensures FileName(path + [c], name + [c])
  {
    if path != name {
      var directory :| path == directory + "/" + name;
      assert path + [c] == directory + "/" + (name + [c]);
    }
  }

  // `local` is the text without the file scheme it may start with.
  ghost predicate LocalText(text: string, local: string) {
    if "file://" <= text then text == "file://" + local else local == text
  }

  // `name` is the last component of `local` without its query and trailing slashes.
  ghost predicate LastComponent(local: string, name: string) {
    exists path, slashes, query :: local == path + slashes + query && '?' !in path + slashes && (query == "" || query[0] == '?')
      && AllSlashes(slashes) && FileName(path, name) && (name != "" || path == "")
  }

  lemma {:induction false} LastComponentIs(local: string)
    ensures LastComponent(local, Basename(TrimEnd(Before(local, '?'), '/')))
  {
    var kept := Before(local, '?');
    var path := TrimEnd(kept, '/');
    BeforeIsPrefix(local, '?');
    TrimmedIs(kept);
    BasenameSplits(path);
    NoNameNoPath(path);
    LastComponentBy(local, path, kept[|path|..], local[|kept|..], Basename(path));
  }

  lemma {:induction false} LastComponentBy(local: string, path: string, slashes: string, query: string, name: string)
    requires '?' !in path + slashes && (query == "" || query[0] == '?') && AllSlashes(slashes)
    requires FileName(path, name) && (name != "" || path == "") && local == path + slashes + query
    ensures LastComponent(local, name)
  {
  }

  lemma {:induction false} LastComponentExactly(local: string, name: string)
    ensures Basename(TrimEnd(Before(local, '?'), '/')) == name <==> LastComponent(local, name)
  {
    LastComponentIs(local);
    if LastComponent(local, name) {
      var path, slashes, query :| local == path + slashes + query && '?' !in path + slashes && (query == "" || query[0] == '?')
        && AllSlashes(slashes) && FileName(path, name) && (name != "" || path == "");
      BeforeQuery(path + slashes, query, '?');
      if name != "" {
        EndsInName(path, name);
      }
      TrimmedSlashes(path, slashes);
      BasenameExactly(path, name);
    }
  }

  lemma {:induction false} EndsInName(path: string, name: string)
    requires FileName(path, name) && name != ""
    ensures path != "" && path[|path| - 1] != '/'
  {
    assert path[|path| - 1] == name[|name| - 1];
  }

  lemma {:induction false} NoNameNoPath(path: string)
    requires path == "" || path[|path| - 1] != '/'
    ensures Basename(path) == "" ==> path == ""
  {
  }

  // `k` is the last of the keys whose path, seen through `f`, is `v`.
  ghost predicate LastWith(keys: seq<string>, at: map<string, string>, f: string -> string, v: string, k: string) {
    exists i :: 0 <= i < |keys| && keys[i] == k && k in at && f(at[k]) == v
      && forall j :: i < j < |keys| && keys[j] in at ==> f(at[keys[j]]) != v
  }

  lemma {:induction false} IndexIsLast(keys: seq<string>, at: map<string, string>, f: string -> string, v: string, k: string)
    ensures v in IndexBy(keys, at, f) && IndexBy(keys, at, f)[v] == k <==> LastWith(keys, at, f, v, k)
  {
    if keys != [] {
      var n := |keys| - 1;
      IndexIsLast(keys[..n], at, f, v, k);
      if keys[n] in at && f(at[keys[n]]) == v {
        if k == keys[n] {
          assert LastWith(keys, at, f, v, k);
        }
      } else {
        LastLater(keys, at, f, v, k);
      }
    }
  }

  lemma {:induction false} LastLater(keys: seq<string>, at: map<string, string>, f: string -> string, v: string, k: string)
    requires keys != [] && (keys[|keys| - 1] in at ==> f(at[keys[|keys| - 1]]) != v)
    ensures LastWith(keys, at, f, v, k) <==> LastWith(keys[..|keys| - 1], at, f, v, k)
  {
    var n := |keys| - 1;
    var front := keys[..n];
    if LastWith(keys, at, f, v, k) {
      var i :| 0 <= i < |keys| && keys[i] == k && k in at && f(at[k]) == v
        && forall j :: i < j < |keys| && keys[j] in at ==> f(at[keys[j]]) != v;
      assert front[i] == k;
      forall j | i < j < n && front[j] in at
        ensures f(at[front[j]]) != v
      {
        assert keys[j] == front[j];
      }
    }
    if LastWith(front, at, f, v, k) {
      var i :| 0 <= i < n && front[i] == k && k in at && f(at[k]) == v
        && forall j :: i < j < n && front[j] in at ==> f(at[front[j]]) != v;
      assert keys[i] == k;
      forall j | i < j < |keys| && keys[j] in at
        ensures f(at[keys[j]]) != v
      {
        assert j < n ==> front[j] == keys[j];
      }
    }
  }

  lemma {:induction false} LastWithExists(keys: seq<string>, at: map<string, string>, f: string -> string, v: string)
    ensures v in IndexBy(keys, at, f) <==> exists k :: k in keys && k in at && f(at[k]) == v
  {
    if keys != [] {
      var n := |keys| - 1;
      LastWithExists(keys[..n], at, f, v);
      assert keys == keys[..n] + [keys[n]];
    }
  }

  // `norm` takes the text for the path some key is staged at.
  ghost predicate IsStagedPath(paths: Dict<string>, norm: string -> string, local: string) {
    exists k :: k in paths.at && norm(paths.at[k]) == norm(local)
  }

  // Where an href leads: to the last key staged at the path it resolves to; when that is no
  // staged path, to the last key staged under its last component.
  ghost predicate PointsAt(paths: Dict<string>, norm: string -> string, href: Json, k: string) {
    && href.Str? && href.s != ""
    && exists local :: LocalText(href.s, local)
         && (if IsStagedPath(paths, norm, local) then LastWith(paths.keys, paths.at, norm, norm(local), k)
             else exists name :: LastComponent(local, name) && LastNamed(paths, name, k))
  }

  // `k` is the last key whose path has this file name.
  ghost predicate LastNamed(paths: Dict<string>, name: string, k: string) {
    exists i :: 0 <= i < |paths.keys| && paths.keys[i] == k && k in paths.at && FileName(paths.at[k], name)
      && forall j :: i < j < |paths.keys| && paths.keys[j] in paths.at ==> !FileName(paths.at[paths.keys[j]], name)
  }

  lemma {:induction false} LastNamedExactly(paths: Dict<string>, name: string, k: string)
    ensures LastNamed(paths, name, k) <==> LastWith(paths.keys, paths.at, Basename, name, k)
  {
    forall path
      ensures Basename(path) == name <==> FileName(path, name)
    {
      BasenameExactly(path, name);
    }
  }

  lemma {:induction false} LocalTextExactly(text: string, local: string)
    ensures RemovePrefix(text, FILE_SCHEME) == local <==> LocalText(text, local)
  {
    if "file://" <= text {
      assert text == "file://" + text[7..];
      assert ("file://" + local)[7..] == local;
    }
  }

  /** An href leads to a key exactly when it points at it, and otherwise nowhere. */
  lemma {:induction false} HrefLeadsExactly(paths: Dict<string>, norm: string -> string, href: Json, k: string)
    requires WellFormed(paths)
    ensures Claiming(LookupOf(paths, norm), norm)(href) == Some(k) <==> PointsAt(paths, norm, href, k)
  {
    if href.Str? && href.s != "" {
      var local := RemovePrefix(href.s, FILE_SCHEME);
      var name := Basename(TrimEnd(Before(local, '?'), '/'));
      KeysInMap(paths);
      forall other
        ensures LocalText(href.s, other) <==> other == local
      {
        LocalTextExactly(href.s, other);
      }
      forall other
        ensures LastComponent(local, other) <==> other == name
      {
        LastComponentExactly(local, other);
      }
      LastWithExists(paths.keys, paths.at, norm, norm(local));
      IndexIsLast(paths.keys, paths.at, norm, norm(local), k);
      IndexIsLast(paths.keys, paths.at, Basename, name, k);
      LastNamedExactly(paths, name, k);
    }
  }

  /** With staged file names apart, an href whose resolved path is not staged leads to `k`
      exactly when its last component is the file name of the path staged for `k`. */
  lemma {:induction false} FileNameLeads(paths: Dict<string>, norm: string -> string, text: string, local: string, name: string, k: string)
    requires WellFormed(paths) && OneToOne(paths, Basename) && text != ""
    requires LocalText(text, local) && LastComponent(local, name) && !IsStagedPath(paths, norm, local)
    ensures Claiming(LookupOf(paths, norm), norm)(Str(text)) == Some(k) <==> k in paths.at && FileName(paths.at[k], name)
  {
    LocalTextExactly(text, local);
    LastComponentExactly(local, name);
    KeysInMap(paths);
    LastWithExists(paths.keys, paths.at, norm, norm(local));
    IndexFindsEachKey(paths.keys, paths.at, Basename);
    IndexOnlyKeys(paths.keys, paths.at, Basename);
    if k in paths.at {
      BasenameExactly(paths.at[k], name);
    }
  }

  // Every staged asset has a file name that is a single path component.
  ghost predicate NamesPlain(keys: seq<string>, at: map<string, Json>) {
    forall k :: k in keys && Stageable(At(at, k)) ==> PlainName(Filename(ObjectOrEmpty(At(at, k)), k))
  }

  ghost predicate OneToOne(paths: Dict<string>, f: string -> string) {
    forall a, b :: a in paths.at && b in paths.at && a != b ==> f(paths.at[a]) != f(paths.at[b])
  }

  // `index` leads from every staged path, seen through `f`, back to its key.
  ghost predicate FindsEveryKey(paths: Dict<string>, index: map<string, string>, f: string -> string) {
    forall k :: k in paths.at ==> f(paths.at[k]) in index && index[f(paths.at[k])] == k
  }

  lemma {:induction false} FindsExactlyOneToOne(paths: Dict<string>, f: string -> string)
    requires WellFormed(paths)
    ensures FindsEveryKey(paths, IndexBy(paths.keys, paths.at, f), f) <==> OneToOne(paths, f)
  {
    KeysInMap(paths);
    if OneToOne(paths, f) {
      IndexFindsEachKey(paths.keys, paths.at, f);
    }
  }

  /** Each of the two lookups finds every staged key, and shadows none, exactly when no two
      staged assets of the manifest land on paths that it takes for the same. */
  lemma {:induction false} LookupsShadowNothing(assets: Dict<Json>, directory: string, downloads: string -> bool, norm: string -> string)
    requires WellFormed(assets) && StagedSpec(assets.keys, assets.at, directory, downloads).Ok?
    ensures var paths := StagedSpec(assets.keys, assets.at, directory, downloads).value;
            var lookup := LookupOf(paths, norm);
            && (FindsEveryKey(paths, lookup.byName, Basename) <==> TargetsApart(assets.keys, assets.at, directory, Basename))
            && (FindsEveryKey(paths, lookup.byPath, norm) <==> TargetsApart(assets.keys, assets.at, directory, norm))
  {
    var paths := StagedSpec(assets.keys, assets.at, directory, downloads).value;
    StagedOnOwnPaths(assets.keys, assets.at, directory, downloads);
    FindsExactlyOneToOne(paths, Basename);
    FindsExactlyOneToOne(paths, norm);
    OneToOneExactlyApart(assets.keys, assets.at, directory, paths, Basename);
    OneToOneExactlyApart(assets.keys, assets.at, directory, paths, norm);
  }

  lemma {:induction false} OneToOneExactlyApart(keys: seq<string>, at: map<string, Json>, directory: string, paths: Dict<string>, f: string -> string)
    requires StagesTo(keys, at, directory, paths)
    ensures OneToOne(paths, f) <==> TargetsApart(keys, at, directory, f)
  {
    if OneToOne(paths, f) {
      forall a, b | a in keys && b in keys && a != b && Stageable(At(at, a)) && Stageable(At(at, b))
        ensures f(Target(directory, a, At(at, a))) != f(Target(directory, b, At(at, b)))
      {
        assert a in paths.at && b in paths.at;
      }
    }
  }

  /** Because a repeated target is refused, plain file names are enough for the name lookup. */
  lemma {:induction false} PlainNamesStayApart(assets: Dict<Json>, directory: string, downloads: string -> bool)
    requires WellFormed(assets) && NamesPlain(assets.keys, assets.at)
    requires StagedSpec(assets.keys, assets.at, directory, downloads).Ok?
    ensures TargetsApart(assets.keys, assets.at, directory, Basename)
  {
    StagedOnOwnPaths(assets.keys, assets.at, directory, downloads);
    forall k | k in assets.keys && Stageable(At(assets.at, k))
      ensures Target(directory, k, At(assets.at, k)) == directory + "/" + Basename(Target(directory, k, At(assets.at, k)))
    {
      PlainJoin(directory, Filename(ObjectOrEmpty(At(assets.at, k)), k));
    }
  }

  // A manifest asset: where its bytes are.
  function StoredAt(key: string): Json {
    Obj(Dict(["bucket", "key"], map["bucket" := Str("sources"), "key" := Str(key)]))
  }

  // Two assets: a storage key of slashes names no file, so the first is staged under its
  // own key `rooted`; the second is stored, and staged, under the plain name `name`.
  function RootedManifest(rooted: string, name: string): Dict<Json> {
    Dict([rooted, name], map[rooted := StoredAt("/"), name := StoredAt(name)])
  }

  lemma {:induction false} SlashKeyFallsBack(fallback: string)
    ensures Filename(StoredAt("/").fields, fallback) == fallback
  {
    assert TrimEnd("/", '/') == "" by { assert "/"[..0] == ""; }
  }

  lemma {:induction false} PlainKeyIsItsName(name: string, fallback: string)
    requires PlainName(name)
    ensures Filename(StoredAt(name).fields, fallback) == name
  {
    BasenameOfPlain(name);
  }

  lemma {:induction false} BasenameOfPlain(name: string)
    requires '/' !in name
    ensures Basename(name) == name
  {
    if name != "" {
      BasenameOfPlain(name[..|name| - 1]);
    }
  }

  lemma {:induction false} RootedParts(top: string, name: string)
    requires '/' !in top && '/' !in name
    ensures SplitOn("/" + top + "/" + name, '/') == ["", top, name]
  {
    var rest := top + ['/'] + name;
    SplitJoined("", rest, '/');
    SplitJoined(top, name, '/');
    SplitJoined(name, "", '/');
    assert "" + ['/'] + rest == "/" + top + "/" + name;
  }

  lemma {:induction false} AppendTwo(path: string, a: string, b: string)
    requires PlainName(a) && PlainName(b)
    ensures AppendComponents(path, ["", a, b]) == path + "/" + a + "/" + b
  {
    assert ["", a, b][1..] == [a, b] && [a, b][1..] == [b] && [b][1..] == [];
    assert AppendComponents(path + "/" + a + "/" + b, []) == path + "/" + a + "/" + b;
    assert AppendComponents(path + "/" + a, [b]) == path + "/" + a + "/" + b;
  }

  // A rooted name leaves the directory.
  lemma {:induction false} RootedJoin(directory: string, top: string, name: string)
    requires PlainName(top) && PlainName(name)
    ensures var rooted := "/" + top + "/" + name; JoinPath(directory, rooted) == rooted && Basename(rooted) == name
  {
    RootedParts(top, name);
    AppendTwo("", top, name);
    assert "" + "/" + top + "/" + name == "/" + top + "/" + name;
    BasenameOfJoined("/" + top, name);
  }

  lemma {:induction false} StageTwo(a: string, b: string, at: map<string, Json>, directory: string, downloads: string -> bool)
    requires a != b && Stageable(At(at, a)) && Stageable(At(at, b))
    requires Target(directory, a, At(at, a)) != Target(directory, b, At(at, b))
    requires downloads(Target(directory, a, At(at, a))) && downloads(Target(directory, b, At(at, b)))
    ensures StagedSpec([a, b], at, directory, downloads)
            == Ok(Put(Put(Empty(), a, Target(directory, a, At(at, a))), b, Target(directory, b, At(at, b))))
  {
    var one: Dict<string> := Put(Empty(), a, Target(directory, a, At(at, a)));
    assert [a, b][..1] == [a] && [a][..0] == [];
    assert StagedSpec([a], at, directory, downloads) == Ok(one);
    assert one.at == map[a := Target(directory, a, At(at, a))];
  }

  lemma {:induction false} RootedIsElsewhere(directory: string, top: string, name: string)
    requires directory != "/" + top
    ensures directory + "/" + name != "/" + top + "/" + name
  {
    var left, right := directory + "/" + name, "/" + top + "/" + name;
    assert left[..|left| - |name| - 1] == directory;
    assert right[..|right| - |name| - 1] == "/" + top;
  }

  lemma {:induction false} RootedTargets(directory: string, rooted: string, name: string)
    requires PlainName(name) && rooted != name
    ensures var at := RootedManifest(rooted, name).at;
            && Stageable(At(at, rooted)) && Target(directory, rooted, At(at, rooted)) == JoinPath(directory, rooted)
            && Stageable(At(at, name)) && Target(directory, name, At(at, name)) == directory + "/" + name
  {
    SlashKeyFallsBack(rooted);
    PlainKeyIsItsName(name, name);
    PlainJoin(directory, name);
  }

  /** Without plain names the name lookup can shadow: such a manifest stages its two assets
      on two paths, and the one file name leads to the second key only. */
  lemma {:induction false} FallbackNameShadows(directory: string, top: string, name: string, downloads: string -> bool, norm: string -> string)
    requires PlainName(top) && PlainName(name) && directory != "/" + top
    requires downloads("/" + top + "/" + name) && downloads(directory + "/" + name)
    ensures var rooted := "/" + top + "/" + name;
            var manifest := RootedManifest(rooted, name);
            var staged := StagedSpec(manifest.keys, manifest.at, directory, downloads);
            && staged.Ok? && staged.value.at.Keys == {rooted, name}
            && LookupOf(staged.value, norm).byName == map[name := name]
  {
    var rooted := "/" + top + "/" + name;
    RootedJoin(directory, top, name);
    BasenameOfJoined(directory, name);
    RootedIsElsewhere(directory, top, name);
    assert rooted[0] == '/';
    RootedTargets(directory, rooted, name);
    StageTwo(rooted, name, RootedManifest(rooted, name).at, directory, downloads);
    LastOfTwoWins(rooted, name, rooted, directory + "/" + name, Basename);
  }

  lemma {:induction false} LastOfTwoWins(first: string, second: string, path1: string, path2: string, f: string -> string)
    requires first != second && f(path1) == f(path2)
    ensures var staged := Put(Put(Empty(), first, path1), second, path2); IndexBy(staged.keys, staged.at, f) == map[f(path2) := second]
  {
    var staged := Put(Put(Empty(), first, path1), second, path2);
    assert staged.keys == [first, second] && staged.keys[..1] == [first] && [first][..0] == [];
    assert IndexBy([first], staged.at, f) == map[f(path1) := first];
  }

  // The produced asset `k` ends up in an asset of the result or in the report.
  ghost predicate Accounted(k: string, produced: Dict<Json>, draftAssets: Dict<Json>, claim: Json -> Option<string>) {
    var m, at := ProducedMatching(produced, claim), ProducedAssets(produced).at;
    || k in KeysOf(m.dropped)
    || (Won(k, at, m, claim) && Claim(k, at, claim).value in draftAssets.at)
  }

  ghost predicate AllAccounted(produced: Dict<Json>, draftAssets: Dict<Json>, claim: Json -> Option<string>) {
    var assets := ProducedAssets(produced);
    forall k :: k in assets.keys && IsObject(assets.at, k) ==> Accounted(k, produced, draftAssets, claim)
  }

  lemma {:induction false} StagedInDraftAccountsForAll(produced: Dict<Json>, staged: Dict<string>, draftAssets: Dict<Json>, norm: string -> string)
    requires ItemWellFormed(produced) && WellFormed(staged) && staged.at.Keys <= draftAssets.at.Keys
    ensures AllAccounted(produced, draftAssets, Claiming(LookupOf(staged, norm), norm))
  {
    var claim := Claiming(LookupOf(staged, norm), norm);
    var assets, m := ProducedAssets(produced), ProducedMatching(produced, claim);
    DroppedAreTheLosers(assets.keys, assets.at, claim);
    IndexOnlyKeys(staged.keys, staged.at, norm);
    IndexOnlyKeys(staged.keys, staged.at, Basename);
    forall k | k in assets.keys && IsObject(assets.at, k)
      ensures Accounted(k, produced, draftAssets, claim)
    {
      if Lost(k, assets.at, m, claim) {
        assert k in Filter(assets.keys, Losing(assets.at, m, claim));
      }
    }
  }

  function SingleAsset(href: string): Dict<Json> {
    Dict(["assets"], map["assets" := Obj(Dict(["a"], map["a" := Obj(Dict(["href"], map["href" := Str(href)]))]))])
  }

  lemma {:induction false} SingleAssetClaims(href: string, dk: string, claim: Json -> Option<string>)
    requires claim(Str(href)) == Some(dk)
    ensures ItemWellFormed(SingleAsset(href))
    ensures ProducedMatching(SingleAsset(href), claim) == Matching(map[dk := "a"], [])
    ensures ProducedAssets(SingleAsset(href)).keys == ["a"] && IsObject(ProducedAssets(SingleAsset(href)).at, "a")
    ensures Claim("a", ProducedAssets(SingleAsset(href)).at, claim) == Some(dk)
  {
    var assets := ProducedAssets(SingleAsset(href));
    assert ["a"][..0] == [];
    assert MatchAll(["a"], assets.at, claim) == MatchOne(MatchAll([], assets.at, claim), "a", assets.at["a"], claim);
    assert map[][dk := "a"] == map[dk := "a"];
  }

  /** No produced asset object is lost without a word, whatever the package returns,
      exactly when every staged key is one of the draft's asset keys. */
  lemma {:induction false} AccountingExact(staged: Dict<string>, draftAssets: Dict<Json>, norm: string -> string)
    requires WellFormed(staged) && OneToOne(staged, norm)
    requires forall k :: k in staged.at ==> staged.at[k] != "" && staged.at[k][0] == '/'
    ensures staged.at.Keys <= draftAssets.at.Keys
            <==> forall produced: Dict<Json> :: ItemWellFormed(produced) ==>
                   AllAccounted(produced, draftAssets, Claiming(LookupOf(staged, norm), norm))
  {
    var claim := Claiming(LookupOf(staged, norm), norm);
    if staged.at.Keys <= draftAssets.at.Keys {
      forall produced: Dict<Json> | ItemWellFormed(produced)
        ensures AllAccounted(produced, draftAssets, claim)
      {
        StagedInDraftAccountsForAll(produced, staged, draftAssets, norm);
      }
    } else {
      var dk :| dk in staged.at && dk !in draftAssets.at;
      var path := staged.at[dk];
      KeysInMap(staged);
      IndexFindsEachKey(staged.keys, staged.at, norm);
      assert !StartsWith(path, FILE_SCHEME) by { assert |path| >= 7 ==> path[..7][0] == path[0]; }
      assert claim(Str(path)) == Some(dk);
      SingleAssetClaims(path, dk, claim);
      var produced := SingleAsset(path);
      assert !Accounted("a", produced, draftAssets, claim);
      assert !AllAccounted(produced, draftAssets, claim);
    }
  }

  /* ---------------------------------- one manifest entry ---------------------------------- */

  datatype EntryError =
    | NoId
    | StagingFailed(stageError: StageError)
    | NoReadableAssets
    | AdapterFailed
    | MergeFailed(mergeError: MergeError)
    | WriteFailed

  // The written document: where it went and what it is.
  datatype Entry = Entry(key: string, merged: MergeResult)

  // What surrounds one entry: its staging directory and downloads, the package's adapter,
  // the resolution of paths, how an id that is not text prints, and the output store.
  datatype Surroundings = Surroundings(
    directory: string, downloads: string -> bool, adapter: Dict<string> -> Option<Json>, norm: string -> string,
    prefix: string, show: Json -> string, writes: string -> bool)

  function OutputKey(s: Surroundings, id: Json): string {
    s.prefix + (if id.Str? then id.s else s.show(id)) + ".json"
  }

  // From the staged paths to the merged item.
  function ExtractSpec(draft: Dict<Json>, paths: Dict<string>, s: Surroundings): Result<MergeResult, EntryError> {
    if paths.keys == [] then Err(NoReadableAssets)
    else
      match s.adapter(paths)
      case None => Err(AdapterFailed)
      case Some(produced) =>
        match MergeSpec(draft, produced, Claiming(LookupOf(paths, s.norm), s.norm))
        case Err(e) => Err(MergeFailed(e))
        case Ok(r) => Ok(r)
  }

  // `process_entry`
  function EntrySpec(draft: Dict<Json>, assets: Dict<Json>, s: Surroundings): Result<Entry, EntryError> {
    if "id" !in draft.at then Err(NoId)
    else
      match StagedSpec(assets.keys, assets.at, s.directory, s.downloads)
      case Err(e) => Err(StagingFailed(e))
      case Ok(paths) =>
        match ExtractSpec(draft, paths, s)
        case Err(e) => Err(e)
        case Ok(merged) =>
          if s.writes(OutputKey(s, draft.at["id"])) then Ok(Entry(OutputKey(s, draft.at["id"]), merged)) else Err(WriteFailed)
  }

  method Extract(draft: Dict<Json>, paths: Dict<string>, s: Surroundings) returns (r: Result<MergeResult, EntryError>)
    requires ItemWellFormed(draft)
    ensures r == ExtractSpec(draft, paths, s)
  {
    if paths.keys == [] {
      return Err(NoReadableAssets);
    }
    var produced := s.adapter(paths);
    if produced.None? {
      return Err(AdapterFailed);
    }
    var merged := MergeItem(draft, produced.value, paths, s.norm);
    r := if merged.Err? then Err(MergeFailed(merged.error)) else Ok(merged.value);
  }

  method ProcessEntry(draft: Dict<Json>, assets: Dict<Json>, s: Surroundings) returns (r: Result<Entry, EntryError>)
    requires ItemWellFormed(draft)
    ensures r == EntrySpec(draft, assets, s)
  {
    if "id" !in draft.at {
      return Err(NoId);
    }
    var key := OutputKey(s, draft.at["id"]);
    var staged := StageAssets(assets, s.directory, s.downloads);
    if staged.Err? {
      return Err(StagingFailed(staged.error));
    }
    var merged := Extract(draft, staged.value, s);
    if merged.Err? {
      return Err(merged.error);
    }
    r := if s.writes(key) then Ok(Entry(key, merged.value)) else Err(WriteFailed);
  }

  // The staged files, what the package made of them, and their merge.
  ghost predicate Extracts(draft: Dict<Json>, assets: Dict<Json>, s: Surroundings, paths: Dict<string>, produced: Json, merged: MergeResult) {
    && StagedSpec(assets.keys, assets.at, s.directory, s.downloads) == Ok(paths) && (exists k :: k in paths.at)
    && s.adapter(paths) == Some(produced)
    && MergeSpec(draft, produced, Claiming(LookupOf(paths, s.norm), s.norm)) == Ok(merged)
  }

  /** An entry is written exactly when some asset could be staged, the package returned an
      item, it could be merged, and the store took it, under the draft's id. */
  lemma {:induction false} WrittenExactly(draft: Dict<Json>, assets: Dict<Json>, s: Surroundings, id: string, e: Entry)
    requires WellFormed(assets) && "id" in draft.at && draft.at["id"] == Str(id)
    ensures EntrySpec(draft, assets, s) == Ok(e)
            <==> s.writes(e.key) && e.key == s.prefix + id + ".json"
                 && exists paths, produced :: Extracts(draft, assets, s, paths, produced, e.merged)
  {
    var staged := StagedSpec(assets.keys, assets.at, s.directory, s.downloads);
    if staged.Ok? {
      StagedOnOwnPaths(assets.keys, assets.at, s.directory, s.downloads);
      KeysInMap(staged.value);
      if staged.value.keys != [] {
        assert staged.value.keys[0] in staged.value.at;
      }
      if s.adapter(staged.value).Some? && EntrySpec(draft, assets, s) == Ok(e) {
        assert Extracts(draft, assets, s, staged.value, s.adapter(staged.value).value, e.merged);
      }
    }
  }

  /** A manifest entry whose assets are the draft's own is extracted without loss: every
      produced asset object is carried into the written item or reported, and the report
      names exactly the losers. */
  lemma {:induction false} ExtractedWithoutLoss(draft: Dict<Json>, assets: Dict<Json>, s: Surroundings)
    requires WellFormed(assets) && assets.at.Keys <= ObjectOrEmpty(Get(draft, "assets")).at.Keys
    requires forall paths :: s.adapter(paths).Some? && s.adapter(paths).value.Obj? ==> ItemWellFormed(s.adapter(paths).value.fields)
    requires EntrySpec(draft, assets, s).Ok?
    ensures var paths := StagedSpec(assets.keys, assets.at, s.directory, s.downloads).value;
            var claim := Claiming(LookupOf(paths, s.norm), s.norm);
            var produced := s.adapter(paths).value.fields;
            && AllAccounted(produced, Get(draft, "assets").fields, claim)
            && EntrySpec(draft, assets, s).value.merged.dropped == ProducedMatching(produced, claim).dropped
  {
    var paths := StagedSpec(assets.keys, assets.at, s.directory, s.downloads).value;
    StagedOnOwnPaths(assets.keys, assets.at, s.directory, s.downloads);
    KeysInMap(assets);
    StagedInDraftAccountsForAll(s.adapter(paths).value.fields, paths, Get(draft, "assets").fields, s.norm);
  }
}
