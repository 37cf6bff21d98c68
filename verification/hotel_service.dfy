/** The hotel service of `src/services/hotel.ts`: where uploaded images and
    logos are stored, how a created or updated hotel document is assembled,
    and the lookups by hotel id. The document store and the file store are
    the fields of `Backend`; `uuidv4()` and `new Date()` are parameters. */
module HotelService {
  import opened Common
  import opened Records

  const NOT_FOUND := "Hotel no encontrado"

  // ---------------------------------------------------------------------
  // Storage paths and file names
  // ---------------------------------------------------------------------

  /** The characters JavaScript's `\s` matches. */
  predicate IsWhitespace(c: char) {
    || c == ' ' || c == '\t' || c == '\n' || c == '\r'
    || c as int == 0x0B || c as int == 0x0C || c as int == 0xA0 || c as int == 0x1680
    || 0x2000 <= c as int <= 0x200A
    || c as int == 0x2028 || c as int == 0x2029 || c as int == 0x202F
    || c as int == 0x205F || c as int == 0x3000 || c as int == 0xFEFF
  }

  predicate NoWhitespace(s: string) {
    forall k :: 0 <= k < |s| ==> !IsWhitespace(s[k])
  }

  /** `s` with its leading run of whitespace removed. */
  function DropWhitespace(s: string): (r: string)
    ensures |r| <= |s| && r == s[|s| - |r|..]
    ensures forall k :: 0 <= k < |s| - |r| ==> IsWhitespace(s[k])
    ensures r == [] || !IsWhitespace(r[0])
    ensures s != [] && IsWhitespace(s[0]) ==> |r| < |s|
  {
    if s != [] && IsWhitespace(s[0]) then DropWhitespace(s[1..]) else s
  }

  /** `name.replace(/\s+/g, '_')`: every maximal run of whitespace becomes
      one underscore. */
  function Underscored(s: string): (r: string)
    ensures NoWhitespace(r)
    ensures |r| <= |s|
    decreases |s|
  {
    if s == [] then []
    else if IsWhitespace(s[0]) then "_" + Underscored(DropWhitespace(s))
    else [s[0]] + Underscored(s[1..])
  }

  /** A name without whitespace is left as it is. */
  lemma {:induction false} UnderscoredPlain(t: string, s: string)
    requires NoWhitespace(t)
    ensures Underscored(t + s) == t + Underscored(s)
  {
    if t != [] {
      var u := t + s;
      assert u[0] == t[0] && !IsWhitespace(u[0]);
      assert u[1..] == t[1..] + s;
      assert Underscored(u) == [t[0]] + Underscored(t[1..] + s);
      UnderscoredPlain(t[1..], s);
      assert t == [t[0]] + t[1..];
    } else {
      assert t + s == s;
    }
  }

  lemma {:induction false} DropWhitespaceRun(w: string, s: string)
    requires forall k :: 0 <= k < |w| ==> IsWhitespace(w[k])
    requires s == [] || !IsWhitespace(s[0])
    ensures DropWhitespace(w + s) == s
  {
    if w != [] {
      assert (w + s)[1..] == w[1..] + s;
      DropWhitespaceRun(w[1..], s);
    } else {
      assert w + s == s;
    }
  }

  /** A whole run of whitespace, however long, becomes a single `_`. */
  lemma UnderscoredRun(w: string, s: string)
    requires w != [] && forall k :: 0 <= k < |w| ==> IsWhitespace(w[k])
    requires s == [] || !IsWhitespace(s[0])
    ensures Underscored(w + s) == "_" + Underscored(s)
  {
    assert (w + s)[0] == w[0];
    DropWhitespaceRun(w, s);
  }

  /** Replacing twice is replacing once. */
  lemma UnderscoredIdempotent(s: string)
    ensures Underscored(Underscored(s)) == Underscored(s)
  {
    var r := Underscored(s);
    UnderscoredPlain(r, []);
    assert r + [] == r;
  }

  /** `${index}_${name'}`: the tail of a gallery file name. */
  function IndexedName(index: nat, name: string): string {
    Decimal(index) + "_" + Underscored(name)
  }

  /** `${hotelId}_gallery_${index}_${name'}` */
  function GalleryFileName(hotelId: string, index: nat, name: string): string {
    hotelId + "_gallery_" + IndexedName(index, name)
  }

  /** The hotel's own folder of the file store. */
  function HotelFolder(hotelId: string): string {
    "hotels/" + hotelId + "/"
  }

  /** `hotels/${hotelId}/gallery/${fileName}`: inside the hotel's folder,
      with `g` where a logo path has `l`. */
  function GalleryPath(hotelId: string, index: nat, name: string): (p: string)
    ensures |p| > |HotelFolder(hotelId)| && p[..|HotelFolder(hotelId)|] == HotelFolder(hotelId)
    ensures p[|HotelFolder(hotelId)|] == 'g'
  {
    var p := "hotels/" + hotelId + "/gallery/" + GalleryFileName(hotelId, index, name);
    assert p == HotelFolder(hotelId) + ("gallery/" + GalleryFileName(hotelId, index, name));
    p
  }

  /** `hotels/${hotelId}/logo/${hotelId}_logo_${name'}`: inside the hotel's
      folder, with `l` where a gallery path has `g`. */
  function LogoPath(hotelId: string, name: string): (p: string)
    ensures |p| > |HotelFolder(hotelId)| && p[..|HotelFolder(hotelId)|] == HotelFolder(hotelId)
    ensures p[|HotelFolder(hotelId)|] == 'l'
  {
    var p := "hotels/" + hotelId + "/logo/" + hotelId + "_logo_" + Underscored(name);
    assert p == HotelFolder(hotelId) + ("logo/" + hotelId + "_logo_" + Underscored(name));
    p
  }

  /** A logo upload never lands on a gallery image of the same hotel. */
  lemma LogoPathNotGalleryPath(hotelId: string, index: nat, a: string, b: string)
    ensures LogoPath(hotelId, b) != GalleryPath(hotelId, index, a)
  {
    var n := |HotelFolder(hotelId)|;
    assert LogoPath(hotelId, b)[n] != GalleryPath(hotelId, index, a)[n];
  }

  /** A run of digits ends where the `_` after it starts, so two
      digits-underscore-rest strings that agree have the same digits. */
  lemma {:induction false} DigitsBeforeUnderscore(di: string, dj: string, x: string, y: string)
    requires forall k :: 0 <= k < |di| ==> IsDigit(di[k])
    requires forall k :: 0 <= k < |dj| ==> IsDigit(dj[k])
    requires di + "_" + x == dj + "_" + y
    ensures di == dj
  {
    var s := di + "_" + x;
    var m := if |di| <= |dj| then |di| else |dj|;
    assert s[m] == (di + "_")[m];
    assert s[m] == (dj + "_")[m];
    assert |di| == |dj|;
    assert di == s[..|di|];
    assert dj == (dj + "_" + y)[..|dj|];
  }

  /** Two gallery files of one upload never share a path, whatever their
      names: the index, followed by `_`, tells them apart. */
  lemma GalleryPathsDistinct(hotelId: string, i: nat, j: nat, a: string, b: string)
    requires i != j
    ensures GalleryPath(hotelId, i, a) != GalleryPath(hotelId, j, b)
  {
    var pre := "hotels/" + hotelId + "/gallery/" + (hotelId + "_gallery_");
    var n1, n2 := IndexedName(i, a), IndexedName(j, b);
    assert GalleryPath(hotelId, i, a) == pre + n1;
    assert GalleryPath(hotelId, j, b) == pre + n2;
    if pre + n1 == pre + n2 {
      assert n1 == (pre + n1)[|pre|..];
      assert n2 == (pre + n2)[|pre|..];
      DigitsBeforeUnderscore(Decimal(i), Decimal(j), Underscored(a), Underscored(b));
      DecimalInjective(i, j);
    }
  }

  /** The storage path of every file of one gallery upload, in order. */
  function GalleryPaths(hotelId: string, files: seq<File>): (ps: seq<string>)
    ensures |ps| == |files|
    ensures forall k :: 0 <= k < |files| ==> ps[k] == GalleryPath(hotelId, k, files[k].name)
  {
    seq(|files|, k requires 0 <= k < |files| => GalleryPath(hotelId, k, files[k].name))
  }

  /** No path occurs twice. */
  ghost predicate Distinct(ps: seq<string>) {
    forall i, j | 0 <= i < j < |ps| :: ps[i] != ps[j]
  }

  /** The paths of one gallery upload are pairwise distinct. */
  lemma GalleryPathsInjective(hotelId: string, files: seq<File>)
    ensures Distinct(GalleryPaths(hotelId, files))
  {
    var ps := GalleryPaths(hotelId, files);
    forall i, j | 0 <= i < j < |ps| ensures ps[i] != ps[j] {
      GalleryPathsDistinct(hotelId, i, j, files[i].name, files[j].name);
    }
  }

  /** The file store accepts every one of these paths. */
  predicate AllAccepted(paths: seq<string>, rejected: map<string, string>) {
    forall k :: 0 <= k < |paths| ==> paths[k] !in rejected
  }

  // ---------------------------------------------------------------------
  // Record assembly
  // ---------------------------------------------------------------------

  /** What `uploadGalleryImages` resolves to: for each file, in order, the
      download URL of its path, described by the file's original name. */
  function UploadedImages(paths: seq<string>, files: seq<File>, downloadUrl: string -> string): (r: seq<GalleryImage>)
    requires |paths| == |files|
    ensures |r| == |files|
    ensures forall i :: 0 <= i < |files| ==> r[i].url == downloadUrl(paths[i]) && r[i].description == Some(files[i].name)
  {
    seq(|files|, i requires 0 <= i < |files| => GalleryImage(downloadUrl(paths[i]), Some(files[i].name)))
  }

  /** The file-store writes of the first `n` uploads of a batch: each file at
      its own path, except those whose path is rejected. */
  function Writes(paths: seq<string>, files: seq<File>, n: nat, rejected: map<string, string>): (w: map<string, File>)
    requires |paths| == |files| && n <= |files|
  {
    if n == 0 then map[]
    else
      var before := Writes(paths, files, n - 1, rejected);
      if paths[n - 1] in rejected then before else before[paths[n - 1] := files[n - 1]]
  }

  /** A batch writes only at its own accepted paths. */
  lemma {:induction false} WritesKeys(paths: seq<string>, files: seq<File>, n: nat, rejected: map<string, string>)
    requires |paths| == |files| && n <= |files|
    ensures forall p :: p in Writes(paths, files, n, rejected) ==>
              p !in rejected && exists k :: 0 <= k < n && paths[k] == p
  {
    if n > 0 {
      WritesKeys(paths, files, n - 1, rejected);
    }
  }

  /** With distinct paths, every accepted file of the batch is found at its
      own path. */
  lemma {:induction false} WritesLookup(paths: seq<string>, files: seq<File>, n: nat, rejected: map<string, string>, k: nat)
    requires |paths| == |files| && k < n <= |files|
    requires Distinct(paths)
    requires paths[k] !in rejected
    ensures paths[k] in Writes(paths, files, n, rejected)
    ensures Writes(paths, files, n, rejected)[paths[k]] == files[k]
  {
    if k < n - 1 {
      WritesLookup(paths, files, n - 1, rejected, k);
      assert paths[k] != paths[n - 1];
    }
  }

  /** The file-store writes of a whole gallery upload. */
  function GalleryWrites(hotelId: string, files: seq<File>, rejected: map<string, string>): map<string, File> {
    Writes(GalleryPaths(hotelId, files), files, |files|, rejected)
  }

  /** Each gallery file whose upload was accepted is stored under its own
      path, so no file of the batch overwrites another. */
  lemma GalleryWritesStoreEachFile(hotelId: string, files: seq<File>, rejected: map<string, string>, k: nat)
    requires k < |files|
    requires GalleryPath(hotelId, k, files[k].name) !in rejected
    ensures GalleryPath(hotelId, k, files[k].name) in GalleryWrites(hotelId, files, rejected)
    ensures GalleryWrites(hotelId, files, rejected)[GalleryPath(hotelId, k, files[k].name)] == files[k]
  {
    GalleryPathsInjective(hotelId, files);
    WritesLookup(GalleryPaths(hotelId, files), files, |files|, rejected, k);
  }

  /** A gallery upload writes only at the gallery paths of its files, and
      never at a rejected one. */
  lemma GalleryWritesKeys(hotelId: string, files: seq<File>, rejected: map<string, string>)
    ensures forall p :: p in GalleryWrites(hotelId, files, rejected) ==>
              p !in rejected && exists k :: 0 <= k < |files| && p == GalleryPath(hotelId, k, files[k].name)
  {
    WritesKeys(GalleryPaths(hotelId, files), files, |files|, rejected);
  }

  /** The logo upload, when there is one, is accepted. */
  predicate LogoAccepted(hotelId: string, logoFile: Option<File>, rejected: map<string, string>) {
    logoFile.None? || LogoPath(hotelId, logoFile.value.name) !in rejected
  }

  /** The download URL the logo upload answers, when there is a logo. */
  function LogoUrl(hotelId: string, logoFile: Option<File>, downloadUrl: string -> string): Option<string> {
    if logoFile.Some? then Some(downloadUrl(LogoPath(hotelId, logoFile.value.name))) else None
  }

  /** What the uploads of one create or update produced. */
  datatype Assets = Assets(logoUrl: Option<string>, gallery: seq<GalleryImage>)

  /** The file-store write of a logo upload, if it got through. */
  function LogoWrites(hotelId: string, logoFile: Option<File>, rejected: map<string, string>): (w: map<string, File>)
    ensures logoFile.None? || LogoPath(hotelId, logoFile.value.name) in rejected ==> w == map[]
    ensures logoFile.Some? && LogoPath(hotelId, logoFile.value.name) !in rejected ==>
              w.Keys == {LogoPath(hotelId, logoFile.value.name)} && w[LogoPath(hotelId, logoFile.value.name)] == logoFile.value
  {
    if logoFile.Some? && LogoPath(hotelId, logoFile.value.name) !in rejected
    then map[LogoPath(hotelId, logoFile.value.name) := logoFile.value]
    else map[]
  }

  /** The existing gallery followed by the new images, with no
      de-duplication (both branches of the source's `if` agree). */
  function MergedGallery(existing: seq<GalleryImage>, added: seq<GalleryImage>): (r: seq<GalleryImage>)
    ensures r == existing + added
    ensures |r| == |existing| + |added|
  {
    if |existing| > 0 then existing + added else added
  }

  /** The document `createHotel` writes: the input's fields, then the fresh
      id, both timestamps and an empty gallery, then the uploaded logo and
      gallery images. */
  function CreatedRecord(hotelData: Record, hotelId: string, now: Timestamp,
                         logoUrl: Option<string>, gallery: seq<GalleryImage>): Record
  {
    var base := hotelData + map[ID := Str(hotelId), CREATED_AT := Time(now), UPDATED_AT := Time(now), GALLERY := Images([])];
    var withLogo := if logoUrl.Some? then base[LOGO := Str(logoUrl.value)] else base;
    withLogo[GALLERY := Images(gallery)]
  }

  /** The fields `updateHotel` writes over the stored document: the input's
      fields and a new `updatedAt`, then the uploaded logo, and when there
      are new images the input's gallery followed by them. */
  function UpdatedFields(hotelData: Record, now: Timestamp,
                         logoUrl: Option<string>, added: seq<GalleryImage>): Record
  {
    var base := hotelData[UPDATED_AT := Time(now)];
    var withLogo := if logoUrl.Some? then base[LOGO := Str(logoUrl.value)] else base;
    if |added| > 0 then withLogo[GALLERY := Images(MergedGallery(GalleryOf(hotelData), added))]
    else withLogo
  }

  /** The created document holds the input's fields, except that the
      service sets `id`, both timestamps and the gallery, and the logo when
      one was uploaded. */
  lemma CreatedRecordFields(hotelData: Record, hotelId: string, now: Timestamp,
                            logoUrl: Option<string>, gallery: seq<GalleryImage>)
    ensures var r := CreatedRecord(hotelData, hotelId, now, logoUrl, gallery);
            && (ID in r && r[ID] == Str(hotelId))
            && (CREATED_AT in r && r[CREATED_AT] == Time(now))
            && (UPDATED_AT in r && r[UPDATED_AT] == Time(now))
            && (GALLERY in r && GalleryOf(r) == gallery)
            && (logoUrl.Some? ==> LOGO in r && r[LOGO] == Str(logoUrl.value))
            && (logoUrl.None? ==> (LOGO in r <==> LOGO in hotelData))
            && (logoUrl.None? && LOGO in hotelData ==> r[LOGO] == hotelData[LOGO])
            && (forall k :: k in hotelData ==> k in r)
            && (forall k :: k in r ==> k in hotelData || k in {ID, CREATED_AT, UPDATED_AT, GALLERY, LOGO})
            && (forall k :: k in hotelData && k !in {ID, CREATED_AT, UPDATED_AT, GALLERY, LOGO} ==> r[k] == hotelData[k])
  {
  }

  /** The update holds the input's fields with a new `updatedAt`, the
      uploaded logo if any, and, when images were added, the input's gallery
      followed by them. */
  lemma UpdatedFieldsFields(hotelData: Record, now: Timestamp,
                            logoUrl: Option<string>, added: seq<GalleryImage>)
    ensures var r := UpdatedFields(hotelData, now, logoUrl, added);
            && (UPDATED_AT in r && r[UPDATED_AT] == Time(now))
            && (logoUrl.Some? ==> LOGO in r && r[LOGO] == Str(logoUrl.value))
            && (logoUrl.None? ==> (LOGO in r <==> LOGO in hotelData))
            && (logoUrl.None? && LOGO in hotelData ==> r[LOGO] == hotelData[LOGO])
            && (|added| > 0 ==> GALLERY in r && GalleryOf(r) == GalleryOf(hotelData) + added)
            && (|added| == 0 ==> (GALLERY in r <==> GALLERY in hotelData))
            && (|added| == 0 && GALLERY in hotelData ==> r[GALLERY] == hotelData[GALLERY])
            && (forall k :: k in hotelData ==> k in r)
            && (forall k :: k in r ==> k in hotelData || k in {UPDATED_AT, GALLERY, LOGO})
            && (forall k :: k in hotelData && k !in {UPDATED_AT, GALLERY, LOGO} ==> r[k] == hotelData[k])
  {
  }

  /** A hotel created from a complete hotel keeps every field except the
      id, the timestamps and the gallery, which the service sets. */
  lemma CreatedFromHotel(h: Hotel, hotelId: string, now: Timestamp, gallery: seq<GalleryImage>)
    ensures RecordToHotel(CreatedRecord(HotelToRecord(h), hotelId, now, None, gallery))
            == Some(h.(id := hotelId, createdAt := now, updatedAt := now, gallery := gallery))
  {
    var created := h.(id := hotelId, createdAt := now, updatedAt := now, gallery := gallery);
    assert CreatedRecord(HotelToRecord(h), hotelId, now, None, gallery) == HotelToRecord(created);
    HotelRecordRoundTrip(created);
  }

  // ---------------------------------------------------------------------
  // The document store and the file store
  // ---------------------------------------------------------------------

  /** A Firestore document: its generated key and its fields. */
  datatype StoredDoc = StoredDoc(key: string, data: Record)

  /** The document's `id` field is this hotel id. */
  predicate HasHotelId(d: StoredDoc, hotelId: string) {
    ID in d.data && d.data[ID] == Str(hotelId)
  }

  /** Firestore's order on document keys: character by character, with a
      proper prefix first. On Unicode scalar values this is the byte order
      of the keys' UTF-8 encodings. */
  predicate KeyBefore(a: string, b: string) {
    if a == [] then b != []
    else b != [] && (a[0] < b[0] || (a[0] == b[0] && KeyBefore(a[1..], b[1..])))
  }

  lemma {:induction false} KeyBeforeTotal(a: string, b: string)
    requires a != b
    ensures KeyBefore(a, b) || KeyBefore(b, a)
  {
    if a != [] && b != [] && a[0] == b[0] {
      assert a == [a[0]] + a[1..] && b == [b[0]] + b[1..];
      KeyBeforeTotal(a[1..], b[1..]);
    }
  }

  /** The order on keys is transitive. */
  lemma {:induction false} KeyBeforeTransitive(a: string, b: string, c: string)
    requires KeyBefore(a, b) && KeyBefore(b, c)
    ensures KeyBefore(a, c)
  {
    if a != [] && a[0] == b[0] && b[0] == c[0] {
      KeyBeforeTransitive(a[1..], b[1..], c[1..]);
    }
  }

  /** No key comes before itself. */
  lemma {:induction false} KeyBeforeIrreflexive(a: string)
    ensures !KeyBefore(a, a)
  {
    if a != [] {
      KeyBeforeIrreflexive(a[1..]);
    }
  }

  /** The documents are listed in strictly increasing key order: each
      key comes before the next. */
  ghost predicate KeyOrdered(docs: seq<StoredDoc>) {
    forall i :: 0 <= i < |docs| - 1 ==> KeyBefore(docs[i].key, docs[i + 1].key)
  }

  /** In a key-ordered collection every key comes before all later ones. */
  lemma {:induction false} KeyOrderedBefore(docs: seq<StoredDoc>, i: nat, j: nat)
    requires KeyOrdered(docs)
    requires i < j < |docs|
    ensures KeyBefore(docs[i].key, docs[j].key)
    decreases j - i
  {
    if i + 1 < j {
      KeyOrderedBefore(docs, i + 1, j);
      KeyBeforeTransitive(docs[i].key, docs[i + 1].key, docs[j].key);
    }
  }

  /** A key-ordered collection never holds two documents with one key. */
  lemma KeyOrderedDistinct(docs: seq<StoredDoc>)
    requires KeyOrdered(docs)
    ensures forall i, j | 0 <= i < j < |docs| :: docs[i].key != docs[j].key
  {
    forall i, j | 0 <= i < j < |docs|
      ensures docs[i].key != docs[j].key
    {
      KeyOrderedBefore(docs, i, j);
      KeyBeforeIrreflexive(docs[i].key);
    }
  }

  /** Where a document with key `key` goes: after every document whose key
      comes before it. */
  function InsertionPoint(docs: seq<StoredDoc>, key: string): (p: nat)
    ensures p <= |docs|
    ensures forall i :: 0 <= i < p ==> KeyBefore(docs[i].key, key)
    ensures p < |docs| ==> !KeyBefore(docs[p].key, key)
  {
    if docs == [] || !KeyBefore(docs[0].key, key) then 0
    else 1 + InsertionPoint(docs[1..], key)
  }

  /** `docs` with `d` added at position `p`. */
  function InsertAt(docs: seq<StoredDoc>, p: nat, d: StoredDoc): (r: seq<StoredDoc>)
    requires p <= |docs|
    ensures |r| == |docs| + 1
    ensures forall k :: 0 <= k < p ==> r[k] == docs[k]
    ensures r[p] == d
    ensures forall k :: p < k < |r| ==> r[k] == docs[k - 1]
  {
    seq(|docs| + 1, k requires 0 <= k <= |docs| => if k < p then docs[k] else if k == p then d else docs[k - 1])
  }

  /** Adding a document with a fresh key at its insertion point keeps the
      collection in key order. */
  lemma InsertKeepsKeyOrder(docs: seq<StoredDoc>, d: StoredDoc)
    requires KeyOrdered(docs)
    requires forall i :: 0 <= i < |docs| ==> docs[i].key != d.key
    ensures KeyOrdered(InsertAt(docs, InsertionPoint(docs, d.key), d))
  {
    var p := InsertionPoint(docs, d.key);
    var r := InsertAt(docs, p, d);
    forall k | 0 <= k < |r| - 1
      ensures KeyBefore(r[k].key, r[k + 1].key)
    {
      if k + 1 < p {
        assert r[k] == docs[k] && r[k + 1] == docs[k + 1];
      } else if k + 1 == p {
        assert r[k] == docs[k] && r[k + 1] == d;
      } else if k == p {
        assert r[k] == d && r[k + 1] == docs[k];
        KeyBeforeTotal(d.key, docs[p].key);
      } else {
        assert r[k] == docs[k - 1] && r[k + 1] == docs[k];
      }
    }
  }

  /** Removing any one document keeps the collection in key order. */
  lemma RemoveKeepsKeyOrder(docs: seq<StoredDoc>, i: nat)
    requires KeyOrdered(docs)
    requires i < |docs|
    ensures KeyOrdered(docs[..i] + docs[i + 1..])
  {
    var r := docs[..i] + docs[i + 1..];
    assert |r| == |docs| - 1;
    forall k | 0 <= k < |r| - 1
      ensures KeyBefore(r[k].key, r[k + 1].key)
    {
      if k + 1 < i {
        assert r[k] == docs[k] && r[k + 1] == docs[k + 1];
      } else if k + 1 == i {
        assert r[k] == docs[k] && r[k + 1] == docs[k + 2];
        KeyBeforeTransitive(docs[k].key, docs[k + 1].key, docs[k + 2].key);
      } else {
        assert r[k] == docs[k + 1] && r[k + 1] == docs[k + 2];
      }
    }
  }

  /** Replacing the fields of one document, under its own key, keeps the
      collection in key order. */
  lemma ReplaceKeepsKeyOrder(docs: seq<StoredDoc>, i: nat, data: Record)
    requires KeyOrdered(docs)
    requires i < |docs|
    ensures KeyOrdered(docs[i := StoredDoc(docs[i].key, data)])
  {
    var r := docs[i := StoredDoc(docs[i].key, data)];
    forall k | 0 <= k < |r| - 1
      ensures KeyBefore(r[k].key, r[k + 1].key)
    {
      assert r[k].key == docs[k].key && r[k + 1].key == docs[k + 1].key;
    }
  }

  /** `query(hotels, where('id', '==', hotelId))` then `docs[0]`: the first
      matching document, in document-key order. */
  function FindById(docs: seq<StoredDoc>, hotelId: string): (r: Option<nat>)
    ensures r.None? <==> forall i :: 0 <= i < |docs| ==> !HasHotelId(docs[i], hotelId)
    ensures r.Some? ==> r.value < |docs| && HasHotelId(docs[r.value], hotelId)
    ensures r.Some? ==> forall i :: 0 <= i < r.value ==> !HasHotelId(docs[i], hotelId)
  {
    if docs == [] then None
    else if HasHotelId(docs[0], hotelId) then Some(0)
    else match FindById(docs[1..], hotelId)
      case None => None
      case Some(k) => Some(k + 1)
  }

  class Backend {
    /** The `hotels` collection, in document-key order (`Valid`). */
    var hotels: seq<StoredDoc>
    /** The file store, by path. */
    var files: map<string, File>
    /** `getDownloadURL` of a stored path. */
    const downloadUrl: string -> string
    /** Paths whose upload the file store rejects, with the error. */
    const rejected: map<string, string>

    /** Firestore lists a collection in strictly increasing key order, so
        no two of its documents share a key (`KeyOrderedDistinct`). */
    ghost predicate Valid()
      reads this
    {
      KeyOrdered(hotels)
    }

    constructor (hotels: seq<StoredDoc>, files: map<string, File>,
                 downloadUrl: string -> string, rejected: map<string, string>)
      requires KeyOrdered(hotels)
      ensures Valid()
      ensures this.hotels == hotels && this.files == files
      ensures this.downloadUrl == downloadUrl && this.rejected == rejected
    {
      this.hotels := hotels;
      this.files := files;
      this.downloadUrl := downloadUrl;
      this.rejected := rejected;
    }

    /** `uploadFile(file, path)`: store the bytes, answer the download URL. */
    method UploadFile(file: File, path: string) returns (r: Result<string>)
      modifies this`files
      ensures path in rejected ==> r == Failure(rejected[path]) && files == old(files)
      ensures path !in rejected ==> r == Success(downloadUrl(path)) && files == old(files)[path := file]
    {
      if path in rejected {
        r := Failure(rejected[path]);
      } else {
        files := files[path := file];
        r := Success(downloadUrl(path));
      }
    }

    /** `uploadHotelLogo(logoFile, hotelId)` */
    method UploadHotelLogo(logoFile: File, hotelId: string) returns (r: Result<string>)
      modifies this`files
      ensures var path := LogoPath(hotelId, logoFile.name);
              && (path in rejected ==> r == Failure(rejected[path]) && files == old(files))
              && (path !in rejected ==> r == Success(downloadUrl(path)) && files == old(files)[path := logoFile])
    {
      r := UploadFile(logoFile, LogoPath(hotelId, logoFile.name));
    }

    /** `Promise.all` over `uploadFile(files[i], paths[i])`: every file is
        uploaded; the result is one entry per file in input order, or a
        rejection when any upload is rejected (the other files are stored
        all the same). */
    method UploadBatch(paths: seq<string>, batch: seq<File>) returns (r: Result<seq<GalleryImage>>)
      requires |paths| == |batch|
      modifies this`files
      ensures files == old(files) + Writes(paths, batch, |batch|, rejected)
      ensures r.Success? <==> AllAccepted(paths, rejected)
      ensures r.Success? ==> r.data == UploadedImages(paths, batch, downloadUrl)
      ensures r.Failure? ==> exists i :: 0 <= i < |paths| && paths[i] in rejected && r.error == rejected[paths[i]]
    {
      var images: seq<GalleryImage> := [];
      var failure: Option<nat> := None;
      var i := 0;
      while i < |batch|
        invariant 0 <= i <= |batch|
        invariant files == old(files) + Writes(paths, batch, i, rejected)
        invariant |images| == i
        invariant forall k :: 0 <= k < i ==> images[k] == GalleryImage(downloadUrl(paths[k]), Some(batch[k].name))
        invariant failure.None? <==> forall k :: 0 <= k < i ==> paths[k] !in rejected
        invariant failure.Some? ==> failure.value < i && paths[failure.value] in rejected
      {
        ghost var before := files;
        var url := UploadFile(batch[i], paths[i]);
        assert files == old(files) + Writes(paths, batch, i + 1, rejected) by {
          if url.Success? {
            UnionUpdate(old(files), Writes(paths, batch, i, rejected), paths[i], batch[i]);
          }
        }
        if url.Failure? && failure.None? {
          failure := Some(i);
        }
        images := images + [GalleryImage(downloadUrl(paths[i]), Some(batch[i].name))];
        i := i + 1;
      }
      if failure.Some? {
        r := Failure(rejected[paths[failure.value]]);
      } else {
        r := Success(images);
      }
    }

    /** Writing into the second map of a union is writing into the union. */
    static lemma UnionUpdate(a: map<string, File>, b: map<string, File>, k: string, v: File)
      ensures a + b[k := v] == (a + b)[k := v]
    {
    }

    /** `uploadGalleryImages(files, hotelId)`: the batch upload of the files
        at their gallery paths. */
    method UploadGalleryImages(gallery: seq<File>, hotelId: string) returns (r: Result<seq<GalleryImage>>)
      modifies this`files
      ensures files == old(files) + GalleryWrites(hotelId, gallery, rejected)
      ensures var paths := GalleryPaths(hotelId, gallery);
              && (r.Success? <==> AllAccepted(paths, rejected))
              && (r.Success? ==> r.data == UploadedImages(paths, gallery, downloadUrl))
              && (r.Failure? ==> exists i :: 0 <= i < |paths| && paths[i] in rejected && r.error == rejected[paths[i]])
    {
      r := UploadBatch(GalleryPaths(hotelId, gallery), gallery);
    }

    /** The uploads `createHotel` and `updateHotel` both begin with: the
        logo when there is one, then the gallery when it is not empty. A
        rejected logo stops before the gallery is touched. */
    method UploadAssets(hotelId: string, galleryFiles: seq<File>, logoFile: Option<File>) returns (r: Result<Assets>)
      modifies this`files
      ensures var logoOk := LogoAccepted(hotelId, logoFile, rejected);
              && (r.Success? <==> logoOk && AllAccepted(GalleryPaths(hotelId, galleryFiles), rejected))
              && files == old(files) + LogoWrites(hotelId, logoFile, rejected)
                          + (if logoOk then GalleryWrites(hotelId, galleryFiles, rejected) else map[])
      ensures r.Success? ==>
                r.data == Assets(LogoUrl(hotelId, logoFile, downloadUrl),
                                 UploadedImages(GalleryPaths(hotelId, galleryFiles), galleryFiles, downloadUrl))
      ensures r.Failure? ==> r.error in rejected.Values
    {
      var logoUrl: Option<string> := None;
      if logoFile.Some? {
        var uploaded := UploadHotelLogo(logoFile.value, hotelId);
        if uploaded.Failure? {
          return Failure(uploaded.error);
        }
        logoUrl := Some(uploaded.data);
      }
      assert files == old(files) + LogoWrites(hotelId, logoFile, rejected);
      var gallery: seq<GalleryImage> := [];
      if |galleryFiles| > 0 {
        var uploaded := UploadGalleryImages(galleryFiles, hotelId);
        if uploaded.Failure? {
          return Failure(uploaded.error);
        }
        gallery := uploaded.data;
      } else {
        assert GalleryWrites(hotelId, galleryFiles, rejected) == map[];
      }
      r := Success(Assets(logoUrl, gallery));
    }

    /** The `newHotel` object of `createHotel`, assembled field by field
        from the uploads' results; `fileCount` is how many gallery files
        were given, and as many images were uploaded. */
    static method BuildCreated(hotelData: Record, hotelId: string, now: Timestamp,
                               logoUrl: Option<string>, gallery: seq<GalleryImage>, fileCount: nat)
      returns (newHotel: Record)
      requires |gallery| == fileCount
      ensures newHotel == CreatedRecord(hotelData, hotelId, now, logoUrl, gallery)
    {
      newHotel := hotelData + map[ID := Str(hotelId), CREATED_AT := Time(now), UPDATED_AT := Time(now), GALLERY := Images([])];
      if logoUrl.Some? {
        newHotel := newHotel[LOGO := Str(logoUrl.value)];
      }
      if fileCount > 0 {
        newHotel := newHotel[GALLERY := Images(gallery)];
      }
    }

    /** The `updatedData` object of `updateHotel`, assembled field by field
        from the uploads' results, with the same `fileCount` as above. */
    static method BuildUpdate(hotelData: Record, now: Timestamp,
                              logoUrl: Option<string>, gallery: seq<GalleryImage>, fileCount: nat)
      returns (updatedData: Record)
      requires |gallery| == fileCount
      ensures updatedData == UpdatedFields(hotelData, now, logoUrl, gallery)
    {
      updatedData := hotelData[UPDATED_AT := Time(now)];
      if logoUrl.Some? {
        updatedData := updatedData[LOGO := Str(logoUrl.value)];
      }
      if fileCount > 0 {
        var existing := GalleryOf(hotelData);
        if |existing| > 0 {
          updatedData := updatedData[GALLERY := Images(existing + gallery)];
        } else {
          updatedData := updatedData[GALLERY := Images(gallery)];
        }
      }
    }

    /** `createHotel(hotelData, galleryFiles, logoFile)`, with `hotelId` the
        value `uuidv4()` returned, `now` the clock and `docKey` the key
        `addDoc` generates. Nothing is written to the collection unless
        every upload got through; the new document takes its place in key
        order (`InsertKeepsKeyOrder`). */
    method CreateHotel(hotelData: Record, galleryFiles: seq<File>, logoFile: Option<File>,
                       hotelId: string, now: Timestamp, docKey: string) returns (r: Result<Record>)
      requires Valid()
      requires forall i :: 0 <= i < |hotels| ==> hotels[i].key != docKey
      modifies this
      ensures Valid()
      ensures var logoOk := LogoAccepted(hotelId, logoFile, rejected);
              && (r.Success? <==> logoOk && AllAccepted(GalleryPaths(hotelId, galleryFiles), rejected))
              && files == old(files) + LogoWrites(hotelId, logoFile, rejected)
                          + (if logoOk then GalleryWrites(hotelId, galleryFiles, rejected) else map[])
      ensures r.Success? ==>
                && r.data == CreatedRecord(hotelData, hotelId, now, LogoUrl(hotelId, logoFile, downloadUrl),
                                           UploadedImages(GalleryPaths(hotelId, galleryFiles), galleryFiles, downloadUrl))
                && hotels == InsertAt(old(hotels), InsertionPoint(old(hotels), docKey), StoredDoc(docKey, r.data))
      ensures r.Failure? ==> hotels == old(hotels) && r.error in rejected.Values
    {
      var assets := UploadAssets(hotelId, galleryFiles, logoFile);
      if assets.Failure? {
        return Failure(assets.error);
      }
      var newHotel := BuildCreated(hotelData, hotelId, now, assets.data.logoUrl, assets.data.gallery, |galleryFiles|);
      InsertKeepsKeyOrder(hotels, StoredDoc(docKey, newHotel));
      hotels := InsertAt(hotels, InsertionPoint(hotels, docKey), StoredDoc(docKey, newHotel));
      r := Success(newHotel);
    }

    /** `updateHotel(hotelId, hotelData, galleryFiles, logoFile)`. The stored
        document gets the updated fields merged over it; the answer is the
        document read back, with `id` defaulting to `hotelId`. */
    method UpdateHotel(hotelId: string, hotelData: Record, galleryFiles: seq<File>, logoFile: Option<File>,
                       now: Timestamp) returns (r: Result<Record>)
      requires Valid()
      modifies this
      ensures Valid()
      ensures FindById(old(hotels), hotelId).None? ==>
                r == Failure(NOT_FOUND) && hotels == old(hotels) && files == old(files)
      ensures var logoOk := LogoAccepted(hotelId, logoFile, rejected);
              FindById(old(hotels), hotelId).Some? ==>
                && (r.Success? <==> logoOk && AllAccepted(GalleryPaths(hotelId, galleryFiles), rejected))
                && files == old(files) + LogoWrites(hotelId, logoFile, rejected)
                            + (if logoOk then GalleryWrites(hotelId, galleryFiles, rejected) else map[])
      ensures r.Failure? ==> hotels == old(hotels)
      ensures r.Success? ==>
                var i := FindById(old(hotels), hotelId).value;
                var fields := UpdatedFields(hotelData, now, LogoUrl(hotelId, logoFile, downloadUrl),
                                            UploadedImages(GalleryPaths(hotelId, galleryFiles), galleryFiles, downloadUrl));
                && hotels == old(hotels)[i := StoredDoc(old(hotels)[i].key, old(hotels)[i].data + fields)]
                && r.data == map[ID := Str(hotelId)] + hotels[i].data
    {
      var found := FindById(hotels, hotelId);
      if found.None? {
        return Failure(NOT_FOUND);
      }
      var i := found.value;
      var assets := UploadAssets(hotelId, galleryFiles, logoFile);
      if assets.Failure? {
        return Failure(assets.error);
      }
      var updatedData := BuildUpdate(hotelData, now, assets.data.logoUrl, assets.data.gallery, |galleryFiles|);
      ReplaceKeepsKeyOrder(hotels, i, hotels[i].data + updatedData);
      hotels := hotels[i := StoredDoc(hotels[i].key, hotels[i].data + updatedData)];
      r := Success(map[ID := Str(hotelId)] + hotels[i].data);
    }

    /** `getAllHotels()`: a copy of every document's fields, in order. */
    method GetAllHotels() returns (r: Result<seq<Record>>)
      ensures r.Success?
      ensures |r.data| == |hotels|
      ensures forall i :: 0 <= i < |hotels| ==> r.data[i] == hotels[i].data
    {
      var list: seq<Record> := [];
      var i := 0;
      while i < |hotels|
        invariant 0 <= i <= |hotels|
        invariant |list| == i
        invariant forall k :: 0 <= k < i ==> list[k] == hotels[k].data
      {
        list := list + [hotels[i].data];
        i := i + 1;
      }
      r := Success(list);
    }

    /** `getHotelById(hotelId)` */
    function GetHotelById(hotelId: string): (r: Result<Record>)
      reads this
      ensures r.Failure? <==> forall i :: 0 <= i < |hotels| ==> !HasHotelId(hotels[i], hotelId)
      ensures r.Failure? ==> r.error == NOT_FOUND
      ensures r.Success? ==> exists i :: 0 <= i < |hotels| && HasHotelId(hotels[i], hotelId) && r.data == hotels[i].data
      ensures r.Success? ==> FindById(hotels, hotelId).Some? && r.data == hotels[FindById(hotels, hotelId).value].data
    {
      match FindById(hotels, hotelId)
      case None => Failure(NOT_FOUND)
      case Some(i) => Success(hotels[i].data)
    }

    /** `deleteHotel(hotelId)`: removes the first document with that id. */
    method DeleteHotel(hotelId: string) returns (r: Result<()>)
      requires Valid()
      modifies this`hotels
      ensures Valid()
      ensures FindById(old(hotels), hotelId).None? ==> r == Failure(NOT_FOUND) && hotels == old(hotels)
      ensures FindById(old(hotels), hotelId).Some? ==>
                var i := FindById(old(hotels), hotelId).value;
                r.Success? && hotels == old(hotels)[..i] + old(hotels)[i + 1..]
    {
      var found := FindById(hotels, hotelId);
      if found.None? {
        return Failure(NOT_FOUND);
      }
      var i := found.value;
      RemoveKeepsKeyOrder(hotels, i);
      hotels := hotels[..i] + hotels[i + 1..];
      r := Success(());
    }
  }
}
