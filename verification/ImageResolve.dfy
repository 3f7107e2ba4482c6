/** Resolving a tag to a verified image
    (services/image-scanner/stac_higher_scanner/registry.py).

    The network, SHA-256 and the JSON parser are parameters: any replies, any hash,
    any parser. */
module ImageResolve {
  import opened Basics
  import opened Json

  const INDEX_TYPES: set<string> := {
    "application/vnd.oci.image.index.v1+json",
    "application/vnd.docker.distribution.manifest.list.v2+json"}
  const MAX_DOCUMENT_BYTES: nat := 4 * 1024 * 1024

  datatype Error =
    | BadPlatform
    | Unreachable
    | Unauthorized
    | BadStatus(status: int)
    | DocumentTooLarge
    | DigestMismatch
    | NotJson
    | NotAnObject
    | NoTagDigest
    | NotIterable
    | NoPlatformManifest
    | NoLayers
    | LayerWithoutSize
    | ImageTooLarge(size: nat)
    | NoConfigDigest
    | WrongPlatform

  datatype Platform = Platform(os: string, architecture: string, variant: Option<string>)

  datatype ImageConfig = ImageConfig(user: string, entrypoint: Option<seq<string>>, cmd: Option<seq<string>>)

  datatype Resolved = Resolved(
    digest: string, platformDigest: string, sizeBytes: nat, config: ImageConfig, os: string, architecture: string)

  /* ---------------------------------- documents ---------------------------------- */

  predicate IsDigest(s: string) {
    && |s| == 71 && s[..7] == "sha256:"
    && forall i :: 7 <= i < 71 ==> 'a' <= s[i] <= 'f' || '0' <= s[i] <= '9'
  }

  function ParsePlatform(value: string): Result<Platform, Error> {
    var parts := SplitOn(value, '/');
    if (|parts| != 2 && |parts| != 3) || "" in parts then Err(BadPlatform)
    else Ok(Platform(parts[0], parts[1], if |parts| == 3 then Some(parts[2]) else None))
  }

  predicate EntryMatches(entry: Json, p: Platform) {
    entry.Obj? &&
    var plat := ObjectOrEmpty(Get(entry.fields, "platform"));
    && Get(plat, "os") == Str(p.os) && Get(plat, "architecture") == Str(p.architecture)
    && (p.variant.None? || Get(plat, "variant") == Str(p.variant.value))
  }

  // A matching entry whose digest is usable.
  predicate EntryPicked(entry: Json, p: Platform) {
    EntryMatches(entry, p) && Get(entry.fields, "digest").Str? && IsDigest(Get(entry.fields, "digest").s)
  }

  function FirstPicked(entries: seq<Json>, p: Platform): Option<string> {
    if entries == [] then None
    else if EntryPicked(entries[0], p) then Some(Get(entries[0].fields, "digest").s)
    else FirstPicked(entries[1..], p)
  }

  // `index.get("manifests") or []`: a truthy number or boolean cannot be iterated, and
  // iterating text or an object yields no entry.
  function PickPlatform(index: Dict<Json>, p: Platform): Result<string, Error> {
    var manifests := Get(index, "manifests");
    if Truthy(manifests) && (manifests.Bool? || manifests.Int? || manifests.Float?) then Err(NotIterable)
    else
      match FirstPicked(ItemsOrNone(manifests), p)
      case Some(digest) => Ok(digest)
      case None => Err(NoPlatformManifest)
  }

  predicate IsIndex(doc: Dict<Json>) {
    var mediaType := Get(doc, "mediaType");
    (mediaType.Str? && mediaType.s in INDEX_TYPES) || Get(doc, "manifests").Arr?
  }

  function LayerSize(layer: Json): Option<nat> {
    if layer.Obj? && Get(layer.fields, "size").Int? && Get(layer.fields, "size").i >= 0
    then Some(Get(layer.fields, "size").i) else None
  }

  function SumLayers(layers: seq<Json>): Option<nat> {
    if layers == [] then Some(0)
    else
      var front, last := SumLayers(layers[..|layers| - 1]), LayerSize(layers[|layers| - 1]);
      if front.Some? && last.Some? then Some(front.value + last.value) else None
  }

  function Strings(items: seq<Json>): seq<string> {
    if items == [] then []
    else (if items[0].Str? then [items[0].s] else []) + Strings(items[1..])
  }

  function StringList(j: Json): Option<seq<string>> {
    if j.Arr? then Some(Strings(j.items)) else None
  }

  function ConfigOf(blob: Dict<Json>): ImageConfig {
    var cfg := ObjectOrEmpty(Get(blob, "config"));
    ImageConfig(if Get(cfg, "User").Str? then Get(cfg, "User").s else "",
                StringList(Get(cfg, "Entrypoint")), StringList(Get(cfg, "Cmd")))
  }

  // What the manifest says before any blob is fetched: its layers' size and config digest.
  function ReadManifest(manifest: Dict<Json>, maxBytes: int): Result<(nat, string), Error> {
    var layers := Get(manifest, "layers");
    if !layers.Arr? || layers.items == [] then Err(NoLayers)
    else if SumLayers(layers.items).None? then Err(LayerWithoutSize)
    else
      var size := SumLayers(layers.items).value;
      var ref := ObjectOrEmpty(Get(manifest, "config"));
      if size > maxBytes then Err(ImageTooLarge(size))
      else if !Get(ref, "digest").Str? || !IsDigest(Get(ref, "digest").s) then Err(NoConfigDigest)
      else Ok((size, Get(ref, "digest").s))
  }

  /* ---------------------------------- the linked chain ---------------------------------- */

  // The hash and the parser every body goes through.
  datatype Codec = Codec(hash: string -> string, parse: string -> Option<Json>)

  function ReadBody(codec: Codec, body: string, digest: string): Result<Dict<Json>, Error> {
    if |body| > MAX_DOCUMENT_BYTES then Err(DocumentTooLarge)
    else if codec.hash(body) != digest then Err(DigestMismatch)
    else
      match codec.parse(body)
      case None => Err(NotJson)
      case Some(j) => if j.Obj? then Ok(j.fields) else Err(NotAnObject)
  }

  // The bodies a resolution rests on.
  datatype Chain = Chain(top: string, manifest: string, config: string)

  ghost predicate TopLinked(codec: Codec, chain: Chain, digest: string, platformDigest: string, p: Platform) {
    var top := ReadBody(codec, chain.top, digest);
    && top.Ok?
    && (if IsIndex(top.value) then PickPlatform(top.value, p) == Ok(platformDigest)
        else platformDigest == digest && chain.manifest == chain.top)
    && ReadBody(codec, chain.manifest, platformDigest).Ok?
  }

  // The manifest's sizes add up within the bound, and the config blob it names is `body`,
  // for the wanted platform.
  ghost predicate ConfigFits(codec: Codec, body: string, manifest: Dict<Json>, want: Platform, maxBytes: int, r: Resolved) {
    && ReadManifest(manifest, maxBytes).Ok?
    && var (size, configDigest) := ReadManifest(manifest, maxBytes).value;
    && r.sizeBytes == size && size <= maxBytes
    && SumLayers(Get(manifest, "layers").items) == Some(size)
    && var blob := ReadBody(codec, body, configDigest);
    && blob.Ok?
    && Get(blob.value, "os") == Str(want.os) && Get(blob.value, "architecture") == Str(want.architecture)
    && r.config == ConfigOf(blob.value) && r.os == want.os && r.architecture == want.architecture
  }

  /* From the tag's digest every document is named by the digest its parent lists, the
     size is the exact sum of the layer sizes and within the bound, and the config blob
     is for the wanted platform. */
  ghost predicate Linked(codec: Codec, chain: Chain, platform: string, maxBytes: int, r: Resolved) {
    var want := ParsePlatform(platform);
    && want.Ok?
    && TopLinked(codec, chain, r.digest, r.platformDigest, want.value)
    && ConfigFits(codec, chain.config, ReadBody(codec, chain.manifest, r.platformDigest).value, want.value, maxBytes, r)
  }

  /** A digest pins the image: under a collision-free hash, any two resolutions of one
      digest for one platform, whatever the tags, bounds and replies, are equal. */
  lemma {:induction false} DigestPinsTheImage(codec: Codec, c1: Chain, c2: Chain, platform: string, max1: int, max2: int, r1: Resolved, r2: Resolved)
    requires forall a, b :: codec.hash(a) == codec.hash(b) ==> a == b
    requires Linked(codec, c1, platform, max1, r1) && Linked(codec, c2, platform, max2, r2)
    requires r1.digest == r2.digest
    ensures r1 == r2 && c1 == c2
  {
    assert c1.top == c2.top;
    assert r1.platformDigest == r2.platformDigest;
    assert c1.manifest == c2.manifest;
  }

  /* ---------------------------------- what the documents say ---------------------------------- */

  // The object has this member.
  predicate Member(d: Dict<Json>, k: string, v: Json) {
    k in d.at && d.at[k] == v
  }

  // `value` spells the platform: two or three parts between slashes, none of them empty.
  ghost predicate Spells(value: string, p: Platform) {
    && p.os != "" && '/' !in p.os && p.architecture != "" && '/' !in p.architecture
    && (p.variant.Some? ==> p.variant.value != "" && '/' !in p.variant.value)
    && value == p.os + "/" + p.architecture + (if p.variant.Some? then "/" + p.variant.value else "")
  }

  lemma {:induction false} SpelledIsRead(value: string, p: Platform)
    requires Spells(value, p)
    ensures ParsePlatform(value) == Ok(p)
  {
    var last := if p.variant.Some? then p.architecture + ['/'] + p.variant.value else p.architecture;
    assert value == p.os + ['/'] + last;
    SplitJoined(p.os, last, '/');
    if p.variant.Some? {
      SplitJoined(p.architecture, p.variant.value, '/');
      SplitJoined(p.variant.value, "", '/');
    } else {
      SplitJoined(p.architecture, "", '/');
    }
    assert SplitOn(value, '/') == [p.os, p.architecture] + if p.variant.Some? then [p.variant.value] else [];
  }

  lemma {:induction false} ReadIsSpelled(value: string, p: Platform)
    requires ParsePlatform(value) == Ok(p)
    ensures Spells(value, p)
  {
    var parts := SplitOn(value, '/');
    SplitJoins(value, '/');
    assert forall i :: 0 <= i < |parts| ==> parts[i] in parts;
    if |parts| == 2 {
      JoinTwo(parts[0], parts[1], '/');
      assert parts == [parts[0], parts[1]];
    } else {
      JoinThree(parts[0], parts[1], parts[2], '/');
      assert parts == [parts[0], parts[1], parts[2]];
    }
  }

  /** A platform is read exactly as it is spelled. */
  lemma {:induction false} PlatformIsSpelled(value: string, p: Platform)
    ensures ParsePlatform(value) == Ok(p) <==> Spells(value, p)
  {
    if Spells(value, p) {
      SpelledIsRead(value, p);
    }
    if ParsePlatform(value) == Ok(p) {
      ReadIsSpelled(value, p);
    }
  }

  // The entry is for the platform and has this usable digest.
  ghost predicate ForPlatform(entry: Json, p: Platform, digest: string) {
    && entry.Obj? && Member(entry.fields, "digest", Str(digest)) && IsDigest(digest)
    && exists platform :: Member(entry.fields, "platform", Obj(platform))
         && Member(platform, "os", Str(p.os)) && Member(platform, "architecture", Str(p.architecture))
         && (p.variant.Some? ==> Member(platform, "variant", Str(p.variant.value)))
  }

  // The first of the entries that is for the platform with a usable digest has this one.
  ghost predicate ListsFirst(entries: seq<Json>, p: Platform, digest: string) {
    exists i :: 0 <= i < |entries| && ForPlatform(entries[i], p, digest)
      && forall j, d :: 0 <= j < i ==> !ForPlatform(entries[j], p, d)
  }

  lemma {:induction false} EntryPickedExactly(entry: Json, p: Platform)
    ensures EntryPicked(entry, p) <==> entry.Obj? && Get(entry.fields, "digest").Str? && ForPlatform(entry, p, Get(entry.fields, "digest").s)
    ensures forall d :: ForPlatform(entry, p, d) ==> EntryPicked(entry, p) && Get(entry.fields, "digest") == Str(d)
  {
  }

  /** The picked manifest is the first entry for the operating system, architecture and,
      when one is wanted, variant that has a usable digest. */
  lemma {:induction false} PickedIsFirst(entries: seq<Json>, p: Platform)
    ensures match FirstPicked(entries, p)
            case None => forall i, d :: 0 <= i < |entries| ==> !ForPlatform(entries[i], p, d)
            case Some(d) => ListsFirst(entries, p, d)
  {
    if entries != [] {
      EntryPickedExactly(entries[0], p);
      if EntryPicked(entries[0], p) {
        assert ForPlatform(entries[0], p, FirstPicked(entries, p).value);
      } else {
        PickedIsFirst(entries[1..], p);
        if FirstPicked(entries[1..], p).Some? {
          ListsFirstLater(entries, p, FirstPicked(entries[1..], p).value);
        } else {
          forall i, d | 0 <= i < |entries|
            ensures !ForPlatform(entries[i], p, d)
          {
            assert i > 0 ==> entries[i] == entries[1..][i - 1];
          }
        }
      }
    }
  }

  /** A digest is the algorithm and 64 lower-case hex digits. */
  lemma {:induction false} DigestExactly(s: string)
    ensures IsDigest(s) <==> exists hex :: s == "sha256:" + hex && |hex| == 64 && forall i :: 0 <= i < 64 ==> hex[i] in "0123456789abcdef"
  {
    if IsDigest(s) {
      assert s == "sha256:" + s[7..];
    }
    if exists hex :: s == "sha256:" + hex && |hex| == 64 && forall i :: 0 <= i < 64 ==> hex[i] in "0123456789abcdef" {
      var hex :| s == "sha256:" + hex && |hex| == 64 && forall i :: 0 <= i < 64 ==> hex[i] in "0123456789abcdef";
      assert forall i :: 7 <= i < 71 ==> s[i] == hex[i - 7];
    }
  }

  /** An index yields the first such entry of its list; a number or a truth value there cannot
      be iterated, and everything else yields nothing. */
  lemma {:induction false} PickedExactly(index: Dict<Json>, p: Platform, digest: string)
    ensures PickPlatform(index, p) == Ok(digest) <==> exists entries :: Member(index, "manifests", Arr(entries)) && ListsFirst(entries, p, digest)
    ensures PickPlatform(index, p) == Err(NotIterable)
            <==> Member(index, "manifests", Bool(true)) || (exists i :: i != 0 && Member(index, "manifests", Int(i)))
                 || exists x :: x != 0.0 && Member(index, "manifests", Float(x))
    ensures PickPlatform(index, p).Err? ==> PickPlatform(index, p).error in {NotIterable, NoPlatformManifest}
  {
    var entries := ItemsOrNone(Get(index, "manifests"));
    PickedIsFirst(entries, p);
    if FirstPicked(entries, p).Some? && ListsFirst(entries, p, digest) {
      FirstIsUnique(entries, p, FirstPicked(entries, p).value, digest);
    }
  }

  lemma {:induction false} ListsFirstLater(entries: seq<Json>, p: Platform, digest: string)
    requires entries != [] && (forall d :: !ForPlatform(entries[0], p, d)) && ListsFirst(entries[1..], p, digest)
    ensures ListsFirst(entries, p, digest)
  {
    var i :| 0 <= i < |entries[1..]| && ForPlatform(entries[1..][i], p, digest)
      && forall j, d :: 0 <= j < i ==> !ForPlatform(entries[1..][j], p, d);
    assert ForPlatform(entries[i + 1], p, digest);
    forall j, d | 0 <= j < i + 1
      ensures !ForPlatform(entries[j], p, d)
    {
      assert j > 0 ==> entries[j] == entries[1..][j - 1];
    }
  }

  lemma {:induction false} FirstIsUnique(entries: seq<Json>, p: Platform, d1: string, d2: string)
    requires ListsFirst(entries, p, d1) && ListsFirst(entries, p, d2)
    ensures d1 == d2
  {
    var i :| 0 <= i < |entries| && ForPlatform(entries[i], p, d1) && forall j, d :: 0 <= j < i ==> !ForPlatform(entries[j], p, d);
    var k :| 0 <= k < |entries| && ForPlatform(entries[k], p, d2) && forall j, d :: 0 <= j < k ==> !ForPlatform(entries[j], p, d);
    assert i == k;
  }

  function Total(sizes: seq<nat>): nat {
    if sizes == [] then 0 else Total(sizes[..|sizes| - 1]) + sizes[|sizes| - 1]
  }

  // Each layer is an object whose `size` is the number at its place, and they add up.
  ghost predicate SizesAddUp(layers: seq<Json>, sizes: seq<nat>, total: nat) {
    && |sizes| == |layers| && Total(sizes) == total
    && forall i :: 0 <= i < |layers| ==> layers[i].Obj? && Member(layers[i].fields, "size", Int(sizes[i]))
  }

  lemma {:induction false} SumIsOfSizes(layers: seq<Json>) returns (sizes: seq<nat>)
    requires SumLayers(layers).Some?
    ensures SizesAddUp(layers, sizes, SumLayers(layers).value)
  {
    sizes := [];
    if layers != [] {
      var n := |layers| - 1;
      var front := SumIsOfSizes(layers[..n]);
      SizesNext(layers, front, LayerSize(layers[n]).value, SumLayers(layers[..n]).value);
      sizes := front + [LayerSize(layers[n]).value];
    }
  }

  lemma {:induction false} SizesAreSummed(layers: seq<Json>, sizes: seq<nat>, size: nat)
    requires SizesAddUp(layers, sizes, size)
    ensures SumLayers(layers) == Some(size)
  {
    if layers != [] {
      var n := |layers| - 1;
      SizesAreSummed(layers[..n], sizes[..n], Total(sizes[..n]));
    }
  }

  /** A layer list has a size exactly when each layer has a natural `size`, and it is their
      sum. */
  lemma {:induction false} SizeIsTheSum(layers: seq<Json>, size: nat)
    ensures SumLayers(layers) == Some(size) <==> exists sizes :: SizesAddUp(layers, sizes, size)
  {
    if SumLayers(layers).Some? {
      var sizes := SumIsOfSizes(layers);
    }
    if exists sizes :: SizesAddUp(layers, sizes, size) {
      var sizes :| SizesAddUp(layers, sizes, size);
      SizesAreSummed(layers, sizes, size);
    }
  }

  lemma {:induction false} SizesNext(layers: seq<Json>, front: seq<nat>, last: nat, total: nat)
    requires layers != [] && SizesAddUp(layers[..|layers| - 1], front, total)
    requires var layer := layers[|layers| - 1]; layer.Obj? && Member(layer.fields, "size", Int(last))
    ensures SizesAddUp(layers, front + [last], total + last)
  {
    assert (front + [last])[..|front|] == front;
    forall i | 0 <= i < |layers|
      ensures layers[i].Obj? && Member(layers[i].fields, "size", Int((front + [last])[i]))
    {
      assert i < |front| ==> layers[..|layers| - 1][i] == layers[i];
    }
  }

  /** One layer's size is the natural number its `size` member holds. */
  lemma {:induction false} LayerSizeExactly(layer: Json, size: nat)
    ensures SumLayers([layer]) == Some(size) <==> layer.Obj? && Member(layer.fields, "size", Int(size))
  {
    assert [layer][..0] == [];
  }

  ghost predicate HasLayers(manifest: Dict<Json>, layers: seq<Json>) {
    Member(manifest, "layers", Arr(layers)) && layers != []
  }

  ghost predicate NamesConfig(manifest: Dict<Json>, digest: string) {
    IsDigest(digest) && exists config :: Member(manifest, "config", Obj(config)) && Member(config, "digest", Str(digest))
  }

  /** What a manifest amounts to, and the first thing that is wrong with it. */
  lemma {:induction false} ManifestReadExactly(manifest: Dict<Json>, maxBytes: int)
    ensures match ReadManifest(manifest, maxBytes)
            case Ok((size, digest)) =>
              size <= maxBytes && NamesConfig(manifest, digest)
              && exists layers, sizes :: HasLayers(manifest, layers) && SizesAddUp(layers, sizes, size)
            case Err(NoLayers) => forall layers :: !HasLayers(manifest, layers)
            case Err(LayerWithoutSize) =>
              exists layers :: HasLayers(manifest, layers) && forall sizes, size: nat :: !SizesAddUp(layers, sizes, size)
            case Err(ImageTooLarge(size)) =>
              size > maxBytes && exists layers, sizes :: HasLayers(manifest, layers) && SizesAddUp(layers, sizes, size)
            case Err(e) =>
              e == NoConfigDigest && (forall digest :: !NamesConfig(manifest, digest))
              && exists layers, sizes, size: nat :: HasLayers(manifest, layers) && SizesAddUp(layers, sizes, size) && size <= maxBytes
  {
    var layers := Get(manifest, "layers");
    if layers.Arr? && layers.items != [] {
      assert HasLayers(manifest, layers.items);
      forall size: nat
        ensures SumLayers(layers.items) == Some(size) <==> exists sizes :: SizesAddUp(layers.items, sizes, size)
      {
        SizeIsTheSum(layers.items, size);
      }
      if SumLayers(layers.items).Some? {
        var sizes :| SizesAddUp(layers.items, sizes, SumLayers(layers.items).value);
      } else {
        forall sizes, size: nat
          ensures !SizesAddUp(layers.items, sizes, size)
        {
          assert SumLayers(layers.items) != Some(size);
        }
      }
    }
  }

  // The body is within the cap, hashes to its digest, and is this JSON object.
  ghost predicate BodyIs(codec: Codec, body: string, digest: string, doc: Dict<Json>) {
    |body| <= 4194304 && codec.hash(body) == digest && codec.parse(body) == Some(Obj(doc))
  }

  lemma {:induction false} BodyReadExactly(codec: Codec, body: string, digest: string, doc: Dict<Json>)
    ensures ReadBody(codec, body, digest) == Ok(doc) <==> BodyIs(codec, body, digest, doc)
  {
  }

  // The document calls itself an index, or lists manifests.
  ghost predicate SaysIndex(doc: Dict<Json>) {
    || Member(doc, "mediaType", Str("application/vnd.oci.image.index.v1+json"))
    || Member(doc, "mediaType", Str("application/vnd.docker.distribution.manifest.list.v2+json"))
    || exists entries :: Member(doc, "manifests", Arr(entries))
  }

  ghost predicate InConfig(blob: Dict<Json>, k: string, v: Json) {
    exists config :: Member(blob, "config", Obj(config)) && Member(config, k, v)
  }

  function IsText(): Json -> bool {
    (j: Json) => j.Str?
  }

  // The texts among the items of the blob's list, in order; none when it is no list.
  ghost predicate ListIs(blob: Dict<Json>, k: string, list: Option<seq<string>>) {
    match list
    case None => forall items :: !InConfig(blob, k, Arr(items))
    case Some(texts) => exists items :: InConfig(blob, k, Arr(items)) && Filter(items, IsText()) == Map(texts, (t: string) => Str(t))
  }

  ghost predicate ConfigIs(blob: Dict<Json>, c: ImageConfig) {
    && (InConfig(blob, "User", Str(c.user)) || (c.user == "" && forall t :: !InConfig(blob, "User", Str(t))))
    && ListIs(blob, "Entrypoint", c.entrypoint) && ListIs(blob, "Cmd", c.cmd)
  }

  lemma {:induction false} StringsAreTheTexts(items: seq<Json>)
    ensures Filter(items, IsText()) == Map(Strings(items), (t: string) => Str(t))
  {
    if items != [] {
      StringsAreTheTexts(items[1..]);
    }
  }

  lemma {:induction false} TextsAreUnique(a: seq<string>, b: seq<string>)
    requires Map(a, (t: string) => Str(t)) == Map(b, (t: string) => Str(t))
    ensures a == b
  {
    forall i | 0 <= i < |a|
      ensures a[i] == b[i]
    {
      assert Map(a, (t: string) => Str(t))[i] == Map(b, (t: string) => Str(t))[i];
    }
  }

  // One reading of a chain: the documents and what matters in them.
  datatype Reading = Reading(
    want: Platform, top: Dict<Json>, manifest: Dict<Json>, layers: seq<Json>, sizes: seq<nat>, configDigest: string, blob: Dict<Json>)

  // The chain, read so, leads from the digest to the image.
  ghost predicate Leads(codec: Codec, chain: Chain, platform: string, maxBytes: int, r: Resolved, x: Reading) {
    && Spells(platform, x.want)
    && BodyIs(codec, chain.top, r.digest, x.top) && BodyIs(codec, chain.manifest, r.platformDigest, x.manifest)
    && (if SaysIndex(x.top) then exists entries :: Member(x.top, "manifests", Arr(entries)) && ListsFirst(entries, x.want, r.platformDigest)
        else r.platformDigest == r.digest && chain.manifest == chain.top)
    && Contributes(codec, chain.config, x.want, maxBytes, r, x)
  }

  /** The image's config is what the blob says: user, entrypoint and command. */
  lemma {:induction false} ConfigIsRead(blob: Dict<Json>, c: ImageConfig)
    ensures ConfigIs(blob, c) <==> c == ConfigOf(blob)
  {
    var config := ObjectOrEmpty(Get(blob, "config"));
    ListIsRead(blob, "Entrypoint", c.entrypoint);
    ListIsRead(blob, "Cmd", c.cmd);
    assert forall k, v :: InConfig(blob, k, v) <==> Get(blob, "config").Obj? && Member(config, k, v);
    assert Get(config, "User").Str? ==> InConfig(blob, "User", Get(config, "User"));
  }

  lemma {:induction false} ListIsRead(blob: Dict<Json>, k: string, list: Option<seq<string>>)
    ensures ListIs(blob, k, list) <==> list == StringList(Get(ObjectOrEmpty(Get(blob, "config")), k))
  {
    var j := Get(ObjectOrEmpty(Get(blob, "config")), k);
    if j.Arr? {
      assert InConfig(blob, k, Arr(j.items));
      StringsAreTheTexts(j.items);
      if list.Some? && ListIs(blob, k, list) {
        TextsAreUnique(list.value, Strings(j.items));
      }
    }
  }

  lemma {:induction false} TopLinkedExactly(codec: Codec, chain: Chain, digest: string, platformDigest: string, p: Platform)
    ensures TopLinked(codec, chain, digest, platformDigest, p)
            <==> exists top, manifest ::
                   && BodyIs(codec, chain.top, digest, top) && BodyIs(codec, chain.manifest, platformDigest, manifest)
                   && (if SaysIndex(top) then exists entries :: Member(top, "manifests", Arr(entries)) && ListsFirst(entries, p, platformDigest)
                       else platformDigest == digest && chain.manifest == chain.top)
  {
    var top := ReadBody(codec, chain.top, digest);
    if top.Ok? {
      BodyReadExactly(codec, chain.top, digest, top.value);
      IndexSaysSo(top.value);
      var manifests := ItemsOrNone(Get(top.value, "manifests"));
      PickedIsFirst(manifests, p);
      if FirstPicked(manifests, p).Some? && ListsFirst(manifests, p, platformDigest) {
        FirstIsUnique(manifests, p, FirstPicked(manifests, p).value, platformDigest);
      }
    }
    if ReadBody(codec, chain.manifest, platformDigest).Ok? {
      BodyReadExactly(codec, chain.manifest, platformDigest, ReadBody(codec, chain.manifest, platformDigest).value);
    }
  }

  // What the manifest and the config blob contribute.
  ghost predicate Contributes(codec: Codec, body: string, want: Platform, maxBytes: int, r: Resolved, x: Reading) {
    && HasLayers(x.manifest, x.layers) && SizesAddUp(x.layers, x.sizes, r.sizeBytes) && r.sizeBytes <= maxBytes
    && NamesConfig(x.manifest, x.configDigest) && BodyIs(codec, body, x.configDigest, x.blob)
    && Member(x.blob, "os", Str(want.os)) && Member(x.blob, "architecture", Str(want.architecture))
    && r.os == want.os && r.architecture == want.architecture && ConfigIs(x.blob, r.config)
  }

  lemma {:induction false} ManifestReadAs(x: Reading, maxBytes: int, size: nat)
    requires HasLayers(x.manifest, x.layers) && SizesAddUp(x.layers, x.sizes, size) && size <= maxBytes && NamesConfig(x.manifest, x.configDigest)
    ensures ReadManifest(x.manifest, maxBytes) == Ok((size, x.configDigest))
    ensures Get(x.manifest, "layers") == Arr(x.layers) && SumLayers(x.layers) == Some(size)
  {
    SizeIsTheSum(x.layers, size);
  }

  lemma {:induction false} ConfigFitsWhenRead(codec: Codec, body: string, want: Platform, maxBytes: int, r: Resolved, x: Reading)
    requires Contributes(codec, body, want, maxBytes, r, x)
    ensures ConfigFits(codec, body, x.manifest, want, maxBytes, r)
  {
    ManifestReadAs(x, maxBytes, r.sizeBytes);
    BodyReadExactly(codec, body, x.configDigest, x.blob);
    ConfigIsRead(x.blob, r.config);
  }

  lemma {:induction false} ConfigFitsIsRead(codec: Codec, body: string, manifest: Dict<Json>, want: Platform, maxBytes: int, r: Resolved, top: Dict<Json>)
    returns (x: Reading)
    requires ConfigFits(codec, body, manifest, want, maxBytes, r)
    ensures x.want == want && x.top == top && x.manifest == manifest && Contributes(codec, body, want, maxBytes, r, x)
  {
    var (size, configDigest) := ReadManifest(manifest, maxBytes).value;
    var blob := ReadBody(codec, body, configDigest).value;
    ManifestReadExactly(manifest, maxBytes);
    var layers, sizes :| HasLayers(manifest, layers) && SizesAddUp(layers, sizes, size);
    BodyReadExactly(codec, body, configDigest, blob);
    ConfigIsRead(blob, r.config);
    x := Reading(want, top, manifest, layers, sizes, configDigest, blob);
  }

  /** A chain links a digest to an image exactly when its bodies can be read so: member by
      member, from the platform's text down to the config blob. */
  lemma {:induction false} LinkedExactly(codec: Codec, chain: Chain, platform: string, maxBytes: int, r: Resolved)
    ensures Linked(codec, chain, platform, maxBytes, r) <==> exists x :: Leads(codec, chain, platform, maxBytes, r, x)
  {
    if Linked(codec, chain, platform, maxBytes, r) {
      var want := ParsePlatform(platform).value;
      PlatformIsSpelled(platform, want);
      TopLinkedExactly(codec, chain, r.digest, r.platformDigest, want);
      var top, manifest := ReadBody(codec, chain.top, r.digest).value, ReadBody(codec, chain.manifest, r.platformDigest).value;
      BodyReadExactly(codec, chain.top, r.digest, top);
      BodyReadExactly(codec, chain.manifest, r.platformDigest, manifest);
      var x := ConfigFitsIsRead(codec, chain.config, manifest, want, maxBytes, r, top);
      assert Leads(codec, chain, platform, maxBytes, r, x);
    }
    if exists x :: Leads(codec, chain, platform, maxBytes, r, x) {
      var x :| Leads(codec, chain, platform, maxBytes, r, x);
      PlatformIsSpelled(platform, x.want);
      TopLinkedExactly(codec, chain, r.digest, r.platformDigest, x.want);
      BodyReadExactly(codec, chain.manifest, r.platformDigest, x.manifest);
      ConfigFitsWhenRead(codec, chain.config, x.want, maxBytes, r, x);
    }
  }

  lemma {:induction false} IndexSaysSo(doc: Dict<Json>)
    ensures IsIndex(doc) <==> SaysIndex(doc)
  {
    if Get(doc, "manifests").Arr? {
      assert Member(doc, "manifests", Arr(Get(doc, "manifests").items));
    }
  }

  /* ---------------------------------- the stateless resolution ---------------------------------- */

  datatype Path = ManifestPath(reference: string) | BlobPath(digest: string)

  // Resolution from a fixed body per path: what the client should compute.
  function ResolveFrom(codec: Codec, bodies: Path -> string, digest: string, platform: string, maxBytes: int): Result<Resolved, Error> {
    match ParsePlatform(platform)
    case Err(e) => Err(e)
    case Ok(want) =>
      match ManifestFrom(codec, bodies, digest, want)
      case Err(e) => Err(e)
      case Ok((platformDigest, manifest)) => ResolveManifest(codec, bodies, digest, platformDigest, manifest, want, maxBytes)
  }

  function ManifestFrom(codec: Codec, bodies: Path -> string, digest: string, want: Platform): Result<(string, Dict<Json>), Error> {
    if !IsDigest(digest) then Err(NoTagDigest)
    else
      match ReadBody(codec, bodies(ManifestPath(digest)), digest)
      case Err(e) => Err(e)
      case Ok(top) => PlatformFrom(codec, bodies, digest, top, want)
  }

  function PlatformFrom(codec: Codec, bodies: Path -> string, digest: string, top: Dict<Json>, want: Platform): Result<(string, Dict<Json>), Error> {
    if !IsIndex(top) then Ok((digest, top))
    else
      match PickPlatform(top, want)
      case Err(e) => Err(e)
      case Ok(platformDigest) =>
        match ReadBody(codec, bodies(ManifestPath(platformDigest)), platformDigest)
        case Err(e) => Err(e)
        case Ok(manifest) => Ok((platformDigest, manifest))
  }

  function ResolveManifest(codec: Codec, bodies: Path -> string, digest: string, platformDigest: string, manifest: Dict<Json>,
                           want: Platform, maxBytes: int): Result<Resolved, Error> {
    match ReadManifest(manifest, maxBytes)
    case Err(e) => Err(e)
    case Ok((size, configDigest)) =>
      match ReadBody(codec, bodies(BlobPath(configDigest)), configDigest)
      case Err(e) => Err(e)
      case Ok(blob) =>
        if Get(blob, "os") != Str(want.os) || Get(blob, "architecture") != Str(want.architecture) then Err(WrongPlatform)
        else Ok(Resolved(digest, platformDigest, size, ConfigOf(blob), want.os, want.architecture))
  }

  // The bodies a store holds for a resolution.
  ghost predicate Holds(codec: Codec, bodies: Path -> string, chain: Chain, maxBytes: int, r: Resolved) {
    && bodies(ManifestPath(r.digest)) == chain.top
    && bodies(ManifestPath(r.platformDigest)) == chain.manifest
    && var manifest := ReadBody(codec, chain.manifest, r.platformDigest);
    && manifest.Ok? && ReadManifest(manifest.value, maxBytes).Ok?
    && bodies(BlobPath(ReadManifest(manifest.value, maxBytes).value.1)) == chain.config
  }

  /** A store resolves a digest to `r` exactly when it holds a chain that links it to `r`. */
  lemma {:induction false} ResolvesExactlyLinked(codec: Codec, bodies: Path -> string, digest: string, platform: string, maxBytes: int, r: Resolved)
    requires IsDigest(digest)
    ensures ResolveFrom(codec, bodies, digest, platform, maxBytes) == Ok(r)
            <==> r.digest == digest && exists chain: Chain :: Linked(codec, chain, platform, maxBytes, r) && Holds(codec, bodies, chain, maxBytes, r)
  {
    if ResolveFrom(codec, bodies, digest, platform, maxBytes) == Ok(r) {
      var manifestBody := bodies(ManifestPath(r.platformDigest));
      var manifest := ReadBody(codec, manifestBody, r.platformDigest).value;
      var chain := Chain(bodies(ManifestPath(digest)), manifestBody, bodies(BlobPath(ReadManifest(manifest, maxBytes).value.1)));
      assert Linked(codec, chain, platform, maxBytes, r) && Holds(codec, bodies, chain, maxBytes, r);
    }
  }

  /* ---------------------------------- the client ---------------------------------- */

  datatype Verb = HeadVerb | GetVerb

  datatype Request = Request(verb: Verb, path: Path, authorization: Option<string>)

  datatype Reply = NoReply | Reply(status: int, body: string, contentDigest: string, challenge: string)

  datatype Exchange = Exchange(request: Request, reply: Reply)

  // A 200 to a request for `path`.
  ghost predicate Answered(x: Exchange, verb: Verb, path: Path) {
    x.request.verb == verb && x.request.path == path && x.reply.Reply? && x.reply.status == 200
  }

  // From position `n` of `log` on, `path` was fetched and `body` came back with a 200.
  ghost predicate Received(log: seq<Exchange>, n: nat, path: Path, body: string) {
    exists i :: n <= i < |log| && Answered(log[i], GetVerb, path) && log[i].reply.body == body
  }

  // From position `n` of `log` on, the registry named `digest` as what `tag` points at.
  ghost predicate Named(log: seq<Exchange>, n: nat, tag: string, digest: string) {
    exists i :: n <= i < |log| && Answered(log[i], HeadVerb, ManifestPath(tag)) && log[i].reply.contentDigest == digest
  }

  ghost predicate OnlyAsks(log: seq<Exchange>, n: nat, verb: Verb, path: Path) {
    forall i :: n <= i < |log| ==> log[i].request.verb == verb && log[i].request.path == path
  }

  // No blob is asked for in `log` beyond position `n`.
  ghost predicate NoBlobsAfter(log: seq<Exchange>, n: nat) {
    forall i :: n <= i < |log| ==> log[i].request.path.ManifestPath?
  }

  // `x` delivered a manifest whose layers are within the bound and whose config is `path`.
  ghost predicate Allows(codec: Codec, x: Exchange, maxBytes: int, path: Path) {
    && x.request.path.ManifestPath? && Answered(x, GetVerb, x.request.path)
    && var manifest := ReadBody(codec, x.reply.body, x.request.path.reference);
    && manifest.Ok? && ReadManifest(manifest.value, maxBytes).Ok?
    && path == BlobPath(ReadManifest(manifest.value, maxBytes).value.1)
  }

  // From position `n` on, a blob is asked for only after a manifest that allows it.
  ghost predicate BlobsAllowed(codec: Codec, log: seq<Exchange>, n: nat, maxBytes: int) {
    forall i :: n <= i < |log| && log[i].request.path.BlobPath? ==>
      exists j :: n <= j < i && Allows(codec, log[j], maxBytes, log[i].request.path)
  }

  // `x` brought a manifest whose layers' sizes add up to `size`.
  ghost predicate Brings(codec: Codec, x: Exchange, size: nat) {
    && x.request.path.ManifestPath? && Answered(x, GetVerb, x.request.path)
    && exists manifest, layers, sizes :: BodyIs(codec, x.reply.body, x.request.path.reference, manifest)
         && HasLayers(manifest, layers) && SizesAddUp(layers, sizes, size)
  }

  // From position `n` on, some reply did.
  ghost predicate Delivered(codec: Codec, log: seq<Exchange>, n: nat, size: nat) {
    exists i :: n <= i < |log| && Brings(codec, log[i], size)
  }

  lemma {:induction false} OversizedDelivered(codec: Codec, log: seq<Exchange>, n: nat, digest: string, body: string, manifest: Dict<Json>, maxBytes: int)
    requires n <= |log| && Received(log, n, ManifestPath(digest), body) && ReadBody(codec, body, digest) == Ok(manifest)
    requires ReadManifest(manifest, maxBytes).Err? && ReadManifest(manifest, maxBytes).error.ImageTooLarge?
    ensures Delivered(codec, log, n, ReadManifest(manifest, maxBytes).error.size)
  {
    var i :| n <= i < |log| && Answered(log[i], GetVerb, ManifestPath(digest)) && log[i].reply.body == body;
    var size := ReadManifest(manifest, maxBytes).error.size;
    ManifestReadExactly(manifest, maxBytes);
    var layers, sizes :| HasLayers(manifest, layers) && SizesAddUp(layers, sizes, size);
    BodyReadExactly(codec, body, digest, manifest);
    assert Brings(codec, log[i], size);
  }

  // Every body of the chain was fetched, from position `n` of `log` on, under its digest.
  ghost predicate AllReceived(codec: Codec, log: seq<Exchange>, n: nat, chain: Chain, r: Resolved, maxBytes: int) {
    && Received(log, n, ManifestPath(r.digest), chain.top)
    && Received(log, n, ManifestPath(r.platformDigest), chain.manifest)
    && var manifest := ReadBody(codec, chain.manifest, r.platformDigest);
    && manifest.Ok? && ReadManifest(manifest.value, maxBytes).Ok?
    && Received(log, n, BlobPath(ReadManifest(manifest.value, maxBytes).value.1), chain.config)
  }

  class RegistryClient {
    const codec: Codec
    // The registry's answer to the n-th request, and the token endpoint's to a challenge.
    const net: (nat, Request) -> Reply
    const token: (nat, string) -> Option<string>
    var authorization: Option<string>
    ghost var log: seq<Exchange>
    var sent: nat

    constructor (codec: Codec, net: (nat, Request) -> Reply, token: (nat, string) -> Option<string>)
      ensures this.codec == codec && this.net == net && this.token == token
      ensures log == [] && sent == 0 && authorization == None
    {
      this.codec, this.net, this.token := codec, net, token;
      authorization, log, sent := None, [], 0;
    }

    // A registry that answers every request with the body it keeps under that path.
    ghost predicate Honest(bodies: Path -> string, digest: string) {
      forall n, request :: net(n, request) == Reply(200, bodies(request.path), digest, "")
    }

    method Transport(request: Request) returns (reply: Reply)
      modifies this
      ensures reply == net(old(sent), request) && sent == old(sent) + 1
      ensures log == old(log) + [Exchange(request, reply)] && authorization == old(authorization)
    {
      reply := net(sent, request);
      log := log + [Exchange(request, reply)];
      sent := sent + 1;
    }

    // One request, repeated once with a fresh token exactly when the first reply is a 401
    // whose challenge yields one.
    method Send(verb: Verb, path: Path) returns (r: Result<Reply, Error>)
      modifies this
      ensures old(log) <= log && |old(log)| < |log| <= |old(log)| + 2 && OnlyAsks(log, |old(log)|, verb, path)
      ensures var first := log[|old(log)|];
              && first == Exchange(Request(verb, path, old(authorization)), net(old(sent), Request(verb, path, old(authorization))))
              && var granted := if first.reply.Reply? && first.reply.status == 401 then token(old(sent) + 1, first.reply.challenge) else None;
              && |log| == |old(log)| + (if granted.Some? then 2 else 1)
              && authorization == (if granted.Some? then granted else old(authorization))
              && log[|log| - 1].request.authorization == authorization
              && r == (if first.reply.Reply? && first.reply.status == 401 && granted.None? then Err(Unauthorized)
                       else if log[|log| - 1].reply.NoReply? then Err(Unreachable)
                       else Ok(log[|log| - 1].reply))
      ensures forall bodies, digest :: Honest(bodies, digest) ==> r == Ok(Reply(200, bodies(path), digest, ""))
    {
      var reply := Transport(Request(verb, path, authorization));
      if reply.NoReply? {
        return Err(Unreachable);
      }
      if reply.status != 401 {
        return Ok(reply);
      }
      var granted := token(sent, reply.challenge);
      if granted.None? {
        return Err(Unauthorized);
      }
      authorization := granted;
      reply := Transport(Request(verb, path, authorization));
      r := if reply.NoReply? then Err(Unreachable) else Ok(reply);
    }

    method Document(path: Path, digest: string) returns (r: Result<Dict<Json>, Error>, ghost body: string)
      modifies this
      ensures old(log) <= log && OnlyAsks(log, |old(log)|, GetVerb, path)
      ensures r.Ok? ==> r == ReadBody(codec, body, digest) && Received(log, |old(log)|, path, body)
      ensures r.Err? && r.error !in {Unreachable, Unauthorized} && !r.error.BadStatus? ==>
                r == ReadBody(codec, body, digest) && Received(log, |old(log)|, path, body)
      ensures forall bodies, tagDigest :: Honest(bodies, tagDigest) ==> r == ReadBody(codec, bodies(path), digest)
    {
      body := "";
      var sentReply := Send(GetVerb, path);
      if sentReply.Err? {
        return Err(sentReply.error), "";
      }
      var reply := sentReply.value;
      if reply.status != 200 {
        return Err(BadStatus(reply.status)), "";
      }
      body := reply.body;
      assert Answered(log[|log| - 1], GetVerb, path);
      r := ReadBody(codec, reply.body, digest);
    }

    method HeadTag(tag: string) returns (r: Result<string, Error>)
      modifies this
      ensures old(log) <= log && OnlyAsks(log, |old(log)|, HeadVerb, ManifestPath(tag))
      ensures r.Ok? ==> IsDigest(r.value) && Named(log, |old(log)|, tag, r.value)
      ensures r.Err? ==> !r.error.ImageTooLarge?
      ensures forall bodies, digest :: Honest(bodies, digest) ==> r == if IsDigest(digest) then Ok(digest) else Err(NoTagDigest)
    {
      var reply := Send(HeadVerb, ManifestPath(tag));
      if reply.Err? {
        return Err(reply.error);
      }
      if reply.value.status != 200 {
        return Err(BadStatus(reply.value.status));
      }
      assert Answered(log[|log| - 1], HeadVerb, ManifestPath(tag));
      r := if IsDigest(reply.value.contentDigest) then Ok(reply.value.contentDigest) else Err(NoTagDigest);
    }

    method SizeOf(layers: seq<Json>) returns (size: Option<nat>)
      ensures size == SumLayers(layers)
    {
      var sum: nat := 0;
      for n := 0 to |layers|
        invariant SumLayers(layers[..n]) == Some(sum)
      {
        assert layers[..n + 1][..n] == layers[..n];
        var one := LayerSize(layers[n]);
        if one.None? {
          BadLayerSpoils(layers, n + 1);
          return None;
        }
        sum := sum + one.value;
      }
      assert layers[..|layers|] == layers;
      size := Some(sum);
    }

    // From the top document to the platform's manifest.
    method PlatformManifest(digest: string, top: Dict<Json>, want: Platform, ghost topBody: string, ghost n: nat)
      returns (r: Result<(string, Dict<Json>), Error>, ghost body: string)
      requires n <= |log| && ReadBody(codec, topBody, digest) == Ok(top) && Received(log, n, ManifestPath(digest), topBody)
      modifies this
      ensures old(log) <= log && NoBlobsAfter(log, |old(log)|)
      ensures r.Ok? ==> ReadBody(codec, body, r.value.0) == Ok(r.value.1) && Received(log, n, ManifestPath(r.value.0), body)
                        && TopLinked(codec, Chain(topBody, body, ""), digest, r.value.0, want)
      ensures r.Err? ==> !r.error.ImageTooLarge?
      ensures forall bodies, tagDigest :: Honest(bodies, tagDigest) ==>
                r == PlatformFrom(codec, bodies, digest, top, want)
    {
      body := topBody;
      if !IsIndex(top) {
        return Ok((digest, top)), body;
      }
      var picked := PickPlatform(top, want);
      if picked.Err? {
        return Err(picked.error), body;
      }
      var doc;
      doc, body := Document(ManifestPath(picked.value), picked.value);
      r := if doc.Err? then Err(doc.error) else Ok((picked.value, doc.value));
    }

    method CheckManifest(manifest: Dict<Json>, maxBytes: int) returns (r: Result<(nat, string), Error>)
      ensures r == ReadManifest(manifest, maxBytes)
    {
      var layers := Get(manifest, "layers");
      if !layers.Arr? || layers.items == [] {
        return Err(NoLayers);
      }
      var size := SizeOf(layers.items);
      if size.None? {
        return Err(LayerWithoutSize);
      }
      if size.value > maxBytes {
        return Err(ImageTooLarge(size.value));
      }
      var configRef := ObjectOrEmpty(Get(manifest, "config"));
      if !Get(configRef, "digest").Str? || !IsDigest(Get(configRef, "digest").s) {
        return Err(NoConfigDigest);
      }
      r := Ok((size.value, Get(configRef, "digest").s));
    }

    // From a manifest within the bound to the resolved image.
    method ConfigBlob(digest: string, platformDigest: string, manifest: Dict<Json>, want: Platform, maxBytes: int)
      returns (r: Result<Resolved, Error>, ghost body: string)
      modifies this
      ensures old(log) <= log
      ensures ReadManifest(manifest, maxBytes).Err? ==> log == old(log) && r == Err(ReadManifest(manifest, maxBytes).error)
      ensures ReadManifest(manifest, maxBytes).Ok? ==> OnlyAsks(log, |old(log)|, GetVerb, BlobPath(ReadManifest(manifest, maxBytes).value.1))
      ensures r.Err? && r.error.ImageTooLarge? ==> ReadManifest(manifest, maxBytes).Err?
      ensures r.Ok? ==> ReadManifest(manifest, maxBytes).Ok?
                        && Received(log, |old(log)|, BlobPath(ReadManifest(manifest, maxBytes).value.1), body)
                        && r.value.digest == digest && r.value.platformDigest == platformDigest
                        && ConfigFits(codec, body, manifest, want, maxBytes, r.value)
      ensures forall bodies, tagDigest :: Honest(bodies, tagDigest) ==>
                r == ResolveManifest(codec, bodies, digest, platformDigest, manifest, want, maxBytes)
    {
      body := "";
      var read := CheckManifest(manifest, maxBytes);
      if read.Err? {
        return Err(read.error), "";
      }
      var blob;
      blob, body := Document(BlobPath(read.value.1), read.value.1);
      if blob.Err? {
        return Err(blob.error), body;
      }
      if Get(blob.value, "os") != Str(want.os) || Get(blob.value, "architecture") != Str(want.architecture) {
        return Err(WrongPlatform), body;
      }
      r := Ok(Resolved(digest, platformDigest, read.value.0, ConfigOf(blob.value), want.os, want.architecture));
    }

    // From a tag to its digest and the platform's manifest.
    method TagManifest(tag: string, want: Platform)
      returns (digest: string, r: Result<(string, Dict<Json>), Error>, ghost topBody: string, ghost body: string)
      modifies this
      ensures old(log) <= log && NoBlobsAfter(log, |old(log)|)
      ensures r.Ok? ==> && IsDigest(digest) && Named(log, |old(log)|, tag, digest)
                        && Received(log, |old(log)|, ManifestPath(digest), topBody)
                        && Received(log, |old(log)|, ManifestPath(r.value.0), body)
                        && ReadBody(codec, body, r.value.0) == Ok(r.value.1)
                        && TopLinked(codec, Chain(topBody, body, ""), digest, r.value.0, want)
      ensures r.Err? ==> !r.error.ImageTooLarge?
      ensures forall bodies, tagDigest :: Honest(bodies, tagDigest) ==>
                (r.Ok? ==> digest == tagDigest) && r == ManifestFrom(codec, bodies, tagDigest, want)
    {
      digest, topBody, body := "", "", "";
      ghost var n := |log|;
      var head := HeadTag(tag);
      if head.Err? {
        return "", Err(head.error), "", "";
      }
      digest := head.value;
      var top;
      top, topBody := Document(ManifestPath(digest), digest);
      if top.Err? {
        return digest, Err(top.error), "", "";
      }
      r, body := PlatformManifest(digest, top.value, want, topBody, n);
    }

    /* Whatever the registry replies, a returned image is linked to the digest it named for
       the tag, by documents it sent during the call, and in every outcome a blob is asked
       for only after a manifest within the bound that names it. An honest registry's image
       is resolved to what its bodies say. */
    method Resolve(tag: string, platform: string, maxBytes: int) returns (r: Result<Resolved, Error>, ghost chain: Chain)
      modifies this
      ensures old(log) <= log && BlobsAllowed(codec, log, |old(log)|, maxBytes)
      ensures r.Ok? ==> IsDigest(r.value.digest) && Named(log, |old(log)|, tag, r.value.digest)
                        && Linked(codec, chain, platform, maxBytes, r.value)
                        && (exists x :: Leads(codec, chain, platform, maxBytes, r.value, x))
                        && AllReceived(codec, log, |old(log)|, chain, r.value, maxBytes)
      ensures r.Err? && r.error.ImageTooLarge? ==>
                r.error.size > maxBytes && NoBlobsAfter(log, |old(log)|) && Delivered(codec, log, |old(log)|, r.error.size)
      ensures forall bodies, digest :: Honest(bodies, digest) ==> r == ResolveFrom(codec, bodies, digest, platform, maxBytes)
    {
      chain := Chain("", "", "");
      var want := ParsePlatform(platform);
      if want.Err? {
        return Err(want.error), chain;
      }
      ghost var n, topBody, manifestBody, configBody := |log|, "", "", "";
      var digest, found;
      digest, found, topBody, manifestBody := TagManifest(tag, want.value);
      if found.Err? {
        return Err(found.error), chain;
      }
      var (platformDigest, manifest) := found.value;
      ghost var before := log;
      r, configBody := ConfigBlob(digest, platformDigest, manifest, want.value, maxBytes);
      BlobsFollow(codec, before, log, n, platformDigest, manifestBody, maxBytes);
      chain := Chain(topBody, manifestBody, configBody);
      if r.Ok? {
        ChainCloses(codec, before, log, n, chain, platform, maxBytes, r.value, manifest);
      } else if r.error.ImageTooLarge? {
        OversizedDelivered(codec, log, n, platformDigest, manifestBody, manifest, maxBytes);
      }
    }
  }

  lemma {:induction false} ReceivedStays(before: seq<Exchange>, after: seq<Exchange>, n: nat, path: Path, body: string)
    requires before <= after && Received(before, n, path, body)
    ensures Received(after, n, path, body)
  {
    var i :| n <= i < |before| && Answered(before[i], GetVerb, path) && before[i].reply.body == body;
    assert after[i] == before[i];
  }

  // A received manifest linked to the tag's digest and the config blob it names, received
  // later, close the chain.
  lemma {:induction false} ChainCloses(codec: Codec, before: seq<Exchange>, after: seq<Exchange>, n: nat, chain: Chain, platform: string,
                                       maxBytes: int, r: Resolved, manifest: Dict<Json>)
    requires n <= |before| && before <= after && ParsePlatform(platform).Ok?
    requires TopLinked(codec, chain, r.digest, r.platformDigest, ParsePlatform(platform).value)
    requires ReadBody(codec, chain.manifest, r.platformDigest) == Ok(manifest)
    requires ConfigFits(codec, chain.config, manifest, ParsePlatform(platform).value, maxBytes, r)
    requires Received(before, n, ManifestPath(r.digest), chain.top)
    requires Received(before, n, ManifestPath(r.platformDigest), chain.manifest)
    requires Received(after, |before|, BlobPath(ReadManifest(manifest, maxBytes).value.1), chain.config)
    ensures Linked(codec, chain, platform, maxBytes, r) && exists x :: Leads(codec, chain, platform, maxBytes, r, x)
    ensures AllReceived(codec, after, n, chain, r, maxBytes)
  {
    LinkedExactly(codec, chain, platform, maxBytes, r);
    ReceivedStays(before, after, n, ManifestPath(r.digest), chain.top);
    ReceivedStays(before, after, n, ManifestPath(r.platformDigest), chain.manifest);
  }

  // Blobs asked for after a received manifest that names them are allowed.
  lemma {:induction false} BlobsFollow(codec: Codec, before: seq<Exchange>, after: seq<Exchange>, n: nat, digest: string, body: string, maxBytes: int)
    requires n <= |before| && before <= after && NoBlobsAfter(before, n) && Received(before, n, ManifestPath(digest), body)
    requires ReadBody(codec, body, digest).Ok?
    requires var read := ReadManifest(ReadBody(codec, body, digest).value, maxBytes);
             if read.Ok? then OnlyAsks(after, |before|, GetVerb, BlobPath(read.value.1)) else after == before
    ensures BlobsAllowed(codec, after, n, maxBytes)
  {
    var j :| n <= j < |before| && Answered(before[j], GetVerb, ManifestPath(digest)) && before[j].reply.body == body;
    assert after[j] == before[j];
    forall i | n <= i < |after| && after[i].request.path.BlobPath?
      ensures exists k :: n <= k < i && Allows(codec, after[k], maxBytes, after[i].request.path)
    {
      assert Allows(codec, after[j], maxBytes, after[i].request.path);
    }
  }

  lemma {:induction false} BadLayerSpoils(layers: seq<Json>, n: nat)
    requires n <= |layers| && SumLayers(layers[..n]).None?
    ensures SumLayers(layers).None?
  {
    if n == |layers| {
      assert layers[..n] == layers;
    } else {
      assert layers[..|layers| - 1][..n] == layers[..n];
      BadLayerSpoils(layers[..|layers| - 1], n);
    }
  }

  /** The size is the exact sum: a layer list has a size exactly when each layer does,
      and appending lists adds their sizes. */
  lemma {:induction false} LayerSizesAdd(a: seq<Json>, b: seq<Json>)
    ensures SumLayers(a + b) == if SumLayers(a).Some? && SumLayers(b).Some? then Some(SumLayers(a).value + SumLayers(b).value) else None
  {
    if b == [] {
      assert a + b == a;
    } else {
      var n := |b| - 1;
      assert (a + b)[..|a + b| - 1] == a + b[..n];
      LayerSizesAdd(a, b[..n]);
    }
  }
}
