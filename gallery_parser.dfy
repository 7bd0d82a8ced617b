/**
 * Reading galleries and photos straight off an object listing: the gallery folders, the
 * date/title split of a folder name, the image-extension rule, the cover image, and the photo
 * records with their dimensions.
 */
module GalleryParser {

  import opened Wrappers
  import opened Strings
  import opened Records
  import opened Keys
  import B2

  // ---------------------------------------------------------------- image files

  const ImageExtensions := [".jpg", ".jpeg", ".png", ".gif", ".webp", ".bmp", ".tiff"]

  /**
   * `name.toLowerCase().substring(name.lastIndexOf('.'))`: from the last '.' on, lower-cased;
   * with no '.' the index is -1, which `substring` reads as 0, giving the whole name.
   */
  function ExtensionOf(name: string): string
  {
    var i := LastIndexOf(name, '.');
    var lower := ToLower(name);
    if i < 0 then lower else lower[i..]
  }

  predicate IsImageFile(name: string)
  {
    ExtensionOf(name) in ImageExtensions
  }

  /** Only '.' lowers to '.'. */
  lemma LowerDot(c: char)
    ensures LowerChar(c) == '.' <==> c == '.'
  {
  }

  lemma LowerKeepsDots(name: string)
    ensures forall k :: 0 <= k < |name| ==> (ToLower(name)[k] == '.' <==> name[k] == '.')
  {
    forall k | 0 <= k < |name| ensures ToLower(name)[k] == '.' <==> name[k] == '.' {
      LowerDot(name[k]);
    }
  }

  /** What every listed extension looks like: a '.', then lower-case text with no further '.'. */
  predicate ExtensionShape(e: string)
  {
    |e| >= 1 && e[0] == '.' && '.' !in e[1..] && ToLower(e) == e
  }

  lemma ListedExtensionsShape()
    ensures forall e :: e in ImageExtensions ==> ExtensionShape(e)
  {
    assert ExtensionShape(".jpg");
    assert ExtensionShape(".jpeg");
    assert ExtensionShape(".png");
    assert ExtensionShape(".gif");
    assert ExtensionShape(".webp");
    assert ExtensionShape(".bmp");
    assert ExtensionShape(".tiff");
  }

  /**
   * An independent reading of the rule: the name is an image exactly when it has a '.' and '.' plus
   * its lower-cased text after the last '.' is one of the extensions.
   */
  lemma IsImageFileBySplit(name: string)
    ensures IsImageFile(name) <==> '.' in name && "." + ToLower(LastSegment(name, '.')) in ImageExtensions
  {
    var i := LastIndexOf(name, '.');
    var lower := ToLower(name);
    LastSegmentIsSuffix(name, '.');
    LowerKeepsDots(name);
    if i < 0 {
      ListedExtensionsShape();
      assert '.' !in lower;
      assert lower !in ImageExtensions;
    } else {
      assert lower[i..] == [lower[i]] + lower[i + 1..];
      assert lower[i + 1..] == ToLower(name[i + 1..]);
    }
  }

  /** A name with no '.' is never an image file. */
  lemma NoDotIsNoImage(name: string)
    requires '.' !in name
    ensures !IsImageFile(name)
  {
    IsImageFileBySplit(name);
  }

  /** Any stem followed by one of the extensions is an image file, whatever the stem holds. */
  lemma ListedExtensionIsImage(stem: string, ext: string)
    requires ext in ImageExtensions
    ensures IsImageFile(stem + ext)
  {
    ListedExtensionsShape();
    var name := stem + ext;
    var i := LastIndexOf(name, '.');
    assert name[|stem|] == '.';
    assert forall j :: |stem| < j < |name| ==> name[j] == ext[1..][j - |stem| - 1];
    assert i == |stem|;
    assert ToLower(name)[i..] == ToLower(ext);
  }

  /** Lower-casing the name does not change the verdict. */
  lemma ImageRuleIgnoresCase(name: string)
    ensures IsImageFile(ToLower(name)) == IsImageFile(name)
  {
    var lower := ToLower(name);
    assert forall k :: 0 <= k < |name| ==> (lower[k] == '.' <==> name[k] == '.') by {
      forall k | 0 <= k < |name| ensures lower[k] == '.' <==> name[k] == '.' {
        LowerDot(name[k]);
      }
    }
    assert LastIndexOf(lower, '.') == LastIndexOf(name, '.');
    assert ToLower(lower) == lower;
  }

  // ---------------------------------------------------------------- folder name: date and title

  /** `\d{4}-\d{2}-\d{2}` at the start. */
  predicate ParserDate(s: string)
  {
    && |s| >= 10
    && IsDigit(s[0]) && IsDigit(s[1]) && IsDigit(s[2]) && IsDigit(s[3]) && s[4] == '-'
    && IsDigit(s[5]) && IsDigit(s[6]) && s[7] == '-' && IsDigit(s[8]) && IsDigit(s[9])
  }

  predicate NoLineTerminator(s: string)
  {
    forall i :: 0 <= i < |s| ==> !IsLineTerminator(s[i])
  }

  /** The number of white-space characters at the front. */
  function SpaceRun(s: string): (n: nat)
    ensures n <= |s| && (forall i :: 0 <= i < n ==> IsSpace(s[i])) && (n == |s| || !IsSpace(s[n]))
    decreases |s|
  {
    if |s| > 0 && IsSpace(s[0]) then 1 + SpaceRun(s[1..]) else 0
  }

  /**
   * `\s+(.+)$` against `s`, where at most `top` leading characters are white space: the greedy
   * `\s+` gives back characters until `.+` can reach the end without a line terminator.
   */
  function GreedyTail(s: string, top: nat): (r: Option<string>)
    requires top <= |s|
    ensures r.Some? ==>
      && 1 <= |s| - |r.value| <= top && |r.value| >= 1
      && r.value == s[|s| - |r.value|..] && NoLineTerminator(r.value)
      && forall l :: |s| - |r.value| < l <= top ==> !(l < |s| && NoLineTerminator(s[l..]))
    ensures r.None? <==> forall l :: 1 <= l <= top ==> !(l < |s| && NoLineTerminator(s[l..]))
    decreases top
  {
    if top == 0 then None
    else if top < |s| && NoLineTerminator(s[top..]) then Some(s[top..])
    else GreedyTail(s, top - 1)
  }

  /** The match of `^(\d{4}-\d{2}-\d{2})\s+(.+)$`: the date and group 2. */
  function DatedName(name: string): Option<(string, string)>
  {
    if !ParserDate(name) then None
    else
      var rest := name[10..];
      match GreedyTail(rest, SpaceRun(rest))
      case None => None
      case Some(g2) => Some((name[..10], g2))
  }

  datatype GalleryFolder = GalleryFolder(id: string, title: string, eventDate: string, folderName: string, coverImage: Option<string>)

  /** A dated folder gives the date and the trimmed title; any other folder its own name and today. */
  function ParseFolder(name: string, today: string, cover: Option<string>): GalleryFolder
  {
    match DatedName(name)
    case Some((date, g2)) => GalleryFolder(name, Trim(g2), date, name, cover)
    case None => GalleryFolder(name, name, today, name, cover)
  }

  /** A date, white space, then a one-line title not starting with white space is read back as that date and title. */
  lemma ParseDatedFolder(date: string, w: string, title: string, today: string, cover: Option<string>)
    requires |date| == 10 && ParserDate(date)
    requires |w| >= 1 && forall i :: 0 <= i < |w| ==> IsSpace(w[i])
    requires |title| >= 1 && !IsSpace(title[0]) && NoLineTerminator(title)
    ensures ParseFolder(date + w + title, today, cover) == GalleryFolder(date + w + title, Trim(title), date, date + w + title, cover)
  {
    var name := date + w + title;
    var rest := name[10..];
    assert rest == w + title;
    assert name[..10] == date;
    SpaceRunSkips(w, title);
    assert rest[|w|..] == title;
  }

  lemma {:induction false} SpaceRunSkips(w: string, s: string)
    requires forall i :: 0 <= i < |w| ==> IsSpace(w[i])
    requires |s| == 0 || !IsSpace(s[0])
    ensures SpaceRun(w + s) == |w|
    decreases |w|
  {
    if |w| == 0 {
      assert w + s == s;
    } else {
      assert (w + s)[1..] == w[1..] + s;
      SpaceRunSkips(w[1..], s);
    }
  }

  /** A match always starts with a date followed by white space, and its group 2 ends the name. */
  lemma DatedNameShape(name: string)
    requires DatedName(name).Some?
    ensures var (date, g2) := DatedName(name).value;
      && date == name[..10] && ParserDate(name) && IsSpace(name[10])
      && |g2| >= 1 && g2 == name[|name| - |g2|..] && NoLineTerminator(g2)
  {
    var rest := name[10..];
    var g2 := DatedName(name).value.1;
    assert rest[|rest| - |g2|..] == name[|name| - |g2|..];
    assert rest[0] == name[10];
  }

  // ---------------------------------------------------------------- gallery folders

  /** A listed key that names a gallery: at least three segments and a non-empty segment 1. */
  predicate ParserCounts(name: string)
  {
    |Split(name, '/')| >= 3 && Segment1(name) != ""
  }

  /** The gallery folder names, distinct, in first-occurrence order. */
  function ParserFolders(objects: seq<ListedObject>): seq<string>
  {
    DistinctSegment1(KeyNames(objects), ParserCounts)
  }

  /** `new Set` filled by `forEach`: a sequence standing for the set, in insertion order. */
  method CollectFolders(objects: seq<ListedObject>) returns (folders: seq<string>)
    ensures folders == ParserFolders(objects)
  {
    folders := [];
    var i := 0;
    while i < |objects|
      invariant 0 <= i <= |objects|
      invariant folders == DistinctSegment1(KeyNames(objects[..i]), ParserCounts)
    {
      var o := objects[i];
      assert objects[..i + 1] == objects[..i] + [o];
      assert objects[..i + 1][..i] == objects[..i];
      var names := KeyNames(objects[..i]);
      if HasKey(o) {
        var key := o.key.value;
        assert KeyNames(objects[..i + 1]) == names + [key];
        assert (names + [key])[..|names|] == names;
        var next := if ParserCounts(key) && Segment1(key) !in folders then folders + [Segment1(key)] else folders;
        assert DistinctSegment1(names + [key], ParserCounts) == next;
        var parts := Split(key, '/');
        if |parts| >= 3 {
          var galleryName := parts[1];
          assert Segment1(key) == galleryName;
          if galleryName != "" && galleryName !in folders {
            folders := folders + [galleryName];
          }
        }
        assert folders == next;
      } else {
        assert KeyNames(objects[..i + 1]) == names;
      }
      i := i + 1;
    }
    assert objects[..i] == objects;
  }

  /** The object's key has at least three segments and `g` is segment 1. */
  predicate InFolder(o: ListedObject, g: string)
  {
    HasKey(o) && |Split(o.key.value, '/')| >= 3 && Segment1(o.key.value) == g
  }

  /** The folders are exactly the non-empty segment 1 of keys with at least three segments, each once. */
  lemma ParserFoldersExact(objects: seq<ListedObject>)
    ensures var fs := ParserFolders(objects);
      && (forall i, j :: 0 <= i < j < |fs| ==> fs[i] != fs[j])
      && forall g :: g in fs <==> (g != "" && exists i :: 0 <= i < |objects| && InFolder(objects[i], g))
  {
    var names := KeyNames(objects);
    forall g
      ensures g in ParserFolders(objects) <==> (g != "" && exists i :: 0 <= i < |objects| && InFolder(objects[i], g))
    {
      if g in ParserFolders(objects) {
        var j :| 0 <= j < |names| && ParserCounts(names[j]) && Segment1(names[j]) == g;
        assert names[j] in names;
      }
      if g != "" && exists i :: 0 <= i < |objects| && InFolder(objects[i], g) {
        var i :| 0 <= i < |objects| && InFolder(objects[i], g);
        var k := objects[i].key.value;
        assert k in names;
        var j :| 0 <= j < |names| && names[j] == k;
        assert ParserCounts(names[j]);
      }
    }
  }

  // ---------------------------------------------------------------- cover image

  const ParserRoot := "B2 LuxSync"

  predicate IsCoverCandidate(o: ListedObject, g: string)
  {
    && HasKey(o)
    && StartsWith(o.key.value, ParserRoot + "/" + g + "/")
    && |Split(o.key.value, '/')| >= 3
    && IsImageFile(LastSegment(o.key.value, '/'))
  }

  /** The URL of the first candidate in listing order, `None` for `undefined`. */
  function CoverOf(objects: seq<ListedObject>, g: string, env: B2.Env): Option<string>
    decreases |objects|
  {
    if |objects| == 0 then None
    else if IsCoverCandidate(objects[0], g) then Some(B2.RawUrl(env, objects[0].key.value))
    else CoverOf(objects[1..], g, env)
  }

  /** The cover is missing exactly when no object is a candidate, and is otherwise the first candidate's URL. */
  lemma {:induction false} CoverIsFirstCandidate(objects: seq<ListedObject>, g: string, env: B2.Env)
    ensures CoverOf(objects, g, env).None? <==> forall i :: 0 <= i < |objects| ==> !IsCoverCandidate(objects[i], g)
    ensures CoverOf(objects, g, env).Some? ==>
      (exists i :: 0 <= i < |objects| && IsCoverCandidate(objects[i], g)
         && CoverOf(objects, g, env).value == B2.RawUrl(env, objects[i].key.value)
         && forall j :: 0 <= j < i ==> !IsCoverCandidate(objects[j], g))
    decreases |objects|
  {
    if |objects| > 0 && !IsCoverCandidate(objects[0], g) {
      var rest := objects[1..];
      CoverIsFirstCandidate(rest, g, env);
      assert forall i :: 1 <= i < |objects| ==> rest[i - 1] == objects[i];
      if CoverOf(rest, g, env).Some? {
        var i :| 0 <= i < |rest| &&
          (&& IsCoverCandidate(rest[i], g)
           && CoverOf(rest, g, env).value == B2.RawUrl(env, rest[i].key.value)
           && forall j :: 0 <= j < i ==> !IsCoverCandidate(rest[j], g));
        assert forall j :: 0 <= j < i + 1 ==> !IsCoverCandidate(objects[j], g) by {
          forall j | 0 <= j < i + 1 ensures !IsCoverCandidate(objects[j], g) {
            if j > 0 { assert objects[j] == rest[j - 1]; }
          }
        }
        assert IsCoverCandidate(objects[i + 1], g);
      }
    }
  }

  /** The early-return loop of `getCoverImageForGallery`. */
  method CoverImage(objects: seq<ListedObject>, g: string, env: B2.Env) returns (cover: Option<string>)
    ensures cover == CoverOf(objects, g, env)
  {
    var i := 0;
    while i < |objects|
      invariant 0 <= i <= |objects|
      invariant CoverOf(objects, g, env) == CoverOf(objects[i..], g, env)
    {
      var o := objects[i];
      assert objects[i..][0] == o && objects[i..][1..] == objects[i + 1..];
      if HasKey(o) && StartsWith(o.key.value, ParserRoot + "/" + g + "/") {
        var parts := Split(o.key.value, '/');
        if |parts| >= 3 && IsImageFile(parts[|parts| - 1]) {
          return Some(B2.RawUrl(env, o.key.value));
        }
      }
      i := i + 1;
    }
    cover := None;
  }

  // ---------------------------------------------------------------- galleries from the listing

  /** What a read of `result.objects` throws when the listing has none. */
  const NoObjects := "Cannot read properties of undefined (reading 'forEach')"

  function GalleryFolders(objects: seq<ListedObject>, env: B2.Env, today: string): (r: seq<GalleryFolder>)
    ensures var fs := ParserFolders(objects);
      |r| == |fs| && forall i :: 0 <= i < |fs| ==> r[i] == ParseFolder(fs[i], today, CoverOf(objects, fs[i], env))
  {
    var fs := ParserFolders(objects);
    seq(|fs|, i requires 0 <= i < |fs| => ParseFolder(fs[i], today, CoverOf(objects, fs[i], env)))
  }

  /** `getGalleriesFromB2`: listing errors are rethrown. */
  function GalleriesFromB2(listing: Result<ListResponse, string>, env: B2.Env, today: string): Result<seq<GalleryFolder>, string>
  {
    match listing
    case Err(m) => Err(m)
    case Ok(resp) =>
      match resp.objects
      case None => Err(NoObjects)
      case Some(objects) => Ok(GalleryFolders(objects, env, today))
  }

  method GetGalleriesFromB2(listing: Result<ListResponse, string>, env: B2.Env, today: string)
    returns (r: Result<seq<GalleryFolder>, string>)
    ensures r == GalleriesFromB2(listing, env, today)
  {
    if listing.Err? {
      return Err(listing.error);
    }
    if listing.value.objects.None? {
      return Err(NoObjects);
    }
    var objects := listing.value.objects.value;
    var folders := CollectFolders(objects);
    var galleries: seq<GalleryFolder> := [];
    var i := 0;
    while i < |folders|
      invariant 0 <= i <= |folders|
      invariant |galleries| == i
      invariant forall j :: 0 <= j < i ==> galleries[j] == ParseFolder(folders[j], today, CoverOf(objects, folders[j], env))
    {
      var cover := CoverImage(objects, folders[i], env);
      galleries := galleries + [ParseFolder(folders[i], today, cover)];
      i := i + 1;
    }
    assert galleries == GalleryFolders(objects, env, today);
    r := Ok(galleries);
  }

  /** Every parsed gallery uses its folder name as id, and the folders are the parser's folders, in order. */
  lemma GalleriesAreFolders(listing: Result<ListResponse, string>, env: B2.Env, today: string)
    requires GalleriesFromB2(listing, env, today).Ok?
    ensures var gs := GalleriesFromB2(listing, env, today).value;
      var fs := ParserFolders(listing.value.objects.value);
      && |gs| == |fs|
      && forall i :: 0 <= i < |gs| ==>
           (&& gs[i].id == fs[i] && gs[i].folderName == fs[i]
            && (DatedName(fs[i]).None? ==> gs[i].title == fs[i] && gs[i].eventDate == today)
            && (DatedName(fs[i]).Some? ==> gs[i].eventDate == fs[i][..10] && gs[i].title == Trim(DatedName(fs[i]).value.1)))
  {
  }

  // ---------------------------------------------------------------- photos of a gallery

  /** The user metadata of an object, as its head request returns it. */
  datatype UserMetadata = UserMetadata(width: Option<string>, height: Option<string>)

  datatype ObjectMetadata = ObjectMetadata(metadata: Option<UserMetadata>)

  /** A non-empty digit run at index `i` followed by `c`: the digits and the index after `c`. */
  function RunThen(s: string, i: nat, c: char): (r: Option<(string, nat)>)
    requires i <= |s|
    ensures r.Some? ==> r.value.1 <= |s| && |r.value.0| > 0 && AllDigits(r.value.0)
  {
    var d := DigitRun(s[i..]);
    var j := i + |d|;
    if |d| > 0 && j < |s| && s[j] == c then Some((d, j + 1)) else None
  }

  /** The groups of `_(\d+)x(\d+)\.` matched at index `i`. */
  function HintAt(s: string, i: nat): Option<(string, string)>
    requires i <= |s|
  {
    if i < |s| && s[i] == '_' then
      match RunThen(s, i + 1, 'x')
      case None => None
      case Some((w, j)) =>
        match RunThen(s, j, '.')
        case None => None
        case Some((h, _)) => Some((w, h))
    else None
  }

  /** The leftmost match at or after `from`, read with `parseInt`. */
  function DimensionHint(s: string, from: nat): Option<(string, string)>
    requires from <= |s|
    decreases |s| - from
  {
    if from == |s| then None
    else if s[from] != '_' then DimensionHint(s, from + 1)
    else match HintAt(s, from)
      case Some(d) => Some(d)
      case None => DimensionHint(s, from + 1)
  }

  /** A digit run `d` at index `|p|` followed by `c` is read whole. */
  lemma RunThenReads(p: string, d: string, c: char, rest: string)
    requires AllDigits(d) && |d| > 0 && !IsDigit(c)
    ensures RunThen(p + (d + ([c] + rest)), |p|, c) == Some((d, |p| + |d| + 1))
  {
    var s := p + (d + ([c] + rest));
    assert s[|p|..] == d + ([c] + rest);
    DigitRunOfDigits(d, [c] + rest);
    assert s[|p| + |d|] == c;
  }

  /** `_<a>x<b>.` at index `|p|`, with digit runs `a` and `b`, is matched with groups `a` and `b`. */
  lemma HintAtReads(p: string, a: string, b: string, rest: string)
    requires AllDigits(a) && AllDigits(b) && |a| > 0 && |b| > 0
    ensures HintAt(p + ("_" + (a + ("x" + (b + ("." + rest))))), |p|) == Some((a, b))
  {
    var s := p + ("_" + (a + ("x" + (b + ("." + rest)))));
    assert s[|p|] == '_';
    assert s == (p + "_") + (a + (['x'] + (b + ("." + rest))));
    RunThenReads(p + "_", a, 'x', b + ("." + rest));
    assert s == (p + "_" + a + "x") + (b + (['.'] + rest));
    RunThenReads(p + "_" + a + "x", b, '.', rest);
  }

  /** A file name carrying `_<W>x<H>.` after an underscore-free stem is read back as W×H, whatever the metadata says. */
  lemma DimensionHintRoundTrip(stem: string, w: nat, h: nat, ext: string, meta: Option<ObjectMetadata>)
    requires '_' !in stem
    ensures DimensionHint(stem + "_" + NatToString(w) + "x" + NatToString(h) + "." + ext, 0) == Some((NatToString(w), NatToString(h)))
    ensures Dimensions(stem + "_" + NatToString(w) + "x" + NatToString(h) + "." + ext, meta) == (Some(w), Some(h))
  {
    var ws, hs := NatToString(w), NatToString(h);
    var s := stem + ("_" + (ws + ("x" + (hs + ("." + ext)))));
    assert stem + "_" + ws + "x" + hs + "." + ext == s;
    HintAtReads(stem, ws, hs, ext);
    DecimalRoundTrip(w);
    DecimalRoundTrip(h);
    assert forall j :: 0 <= j < |stem| ==> s[j] == stem[j];
    HintSkipsStem(s, |stem|, 0);
  }

  /** No match starts before index `k` when no underscore does. */
  lemma {:induction false} HintSkipsStem(s: string, k: nat, from: nat)
    requires from <= k <= |s| && forall j :: from <= j < k ==> s[j] != '_'
    ensures DimensionHint(s, from) == DimensionHint(s, k)
    decreases k - from
  {
    if from < k {
      NoUnderscoreNoHint(s, from);
      HintSkipsStem(s, k, from + 1);
    }
  }

  /** The search moves past an index that holds no underscore. */
  lemma NoUnderscoreNoHint(s: string, from: nat)
    requires from < |s| && s[from] != '_'
    ensures DimensionHint(s, from) == DimensionHint(s, from + 1)
  {
  }

  const DefaultWidth := 600
  const DefaultHeight := 900

  /**
   * Width and height: from the file-name hint; else from the metadata when both fields are set
   * (`parseInt`, `None` for NaN); else 600×900, also when the metadata fetch fails (`meta` absent).
   */
  function Dimensions(fileName: string, meta: Option<ObjectMetadata>): (Option<int>, Option<int>)
  {
    match DimensionHint(fileName, 0)
    case Some((w, h)) => (ParseInt(w), ParseInt(h))
    case None =>
      if meta.Some? && meta.value.metadata.Some?
         && B2.Truthy(meta.value.metadata.value.width) && B2.Truthy(meta.value.metadata.value.height)
      then (ParseInt(meta.value.metadata.value.width.value), ParseInt(meta.value.metadata.value.height.value))
      else (Some(DefaultWidth), Some(DefaultHeight))
  }

  /** An object `getPhotosForGallery` keeps: key, non-zero size, a date, three segments and an image name. */
  predicate Kept(o: ListedObject)
  {
    && HasKey(o) && o.size.Some? && o.size.value != 0 && o.lastModified.Some?
    && |Split(o.key.value, '/')| >= 3
    && IsImageFile(LastSegment(o.key.value, '/'))
  }

  function MetadataOf(metadata: map<string, ObjectMetadata>, key: string): Option<ObjectMetadata>
  {
    if key in metadata then Some(metadata[key]) else None
  }

  /** The record for the object under `key`: its id and file key, segment 1 as gallery, segment 2 as user tag, the raw public URL twice. */
  function PhotoRecord(key: string, env: B2.Env, dims: (Option<int>, Option<int>)): Photo
    requires |Split(key, '/')| >= 3
  {
    var parts := Split(key, '/');
    var url := B2.RawUrl(env, key);
    Photo(key, parts[1], Some(parts[2]), key, url, Some(url), dims.0, dims.1)
  }

  function PhotoFor(o: ListedObject, env: B2.Env, metadata: map<string, ObjectMetadata>): Photo
    requires Kept(o)
  {
    var key := o.key.value;
    PhotoRecord(key, env, Dimensions(LastSegment(key, '/'), MetadataOf(metadata, key)))
  }

  /** The results of `f` on the kept objects, in listing order. */
  function MapKept<T>(objects: seq<ListedObject>, f: ListedObject --> T): seq<T>
    requires forall o :: Kept(o) ==> f.requires(o)
    decreases |objects|
  {
    if |objects| == 0 then []
    else
      var o := objects[|objects| - 1];
      MapKept(objects[..|objects| - 1], f) + (if Kept(o) then [f(o)] else [])
  }

  lemma {:induction false} MapKeptMembers<T>(objects: seq<ListedObject>, f: ListedObject --> T)
    requires forall o :: Kept(o) ==> f.requires(o)
    ensures |MapKept(objects, f)| <= |objects|
    ensures forall p :: p in MapKept(objects, f) <==> exists i :: 0 <= i < |objects| && Kept(objects[i]) && p == f(objects[i])
    decreases |objects|
  {
    if |objects| > 0 {
      var n := |objects| - 1;
      var front := objects[..n];
      MapKeptMembers(front, f);
      assert forall i :: 0 <= i < n ==> front[i] == objects[i];
    }
  }

  function PhotosOf(objects: seq<ListedObject>, env: B2.Env, metadata: map<string, ObjectMetadata>): seq<Photo>
  {
    MapKept(objects, o requires Kept(o) => PhotoFor(o, env, metadata))
  }

  /** The photos are exactly the records of the kept objects, at most one per object. */
  lemma PhotosOfMembers(objects: seq<ListedObject>, env: B2.Env, metadata: map<string, ObjectMetadata>)
    ensures |PhotosOf(objects, env, metadata)| <= |objects|
    ensures forall p :: p in PhotosOf(objects, env, metadata) <==>
      (exists i :: 0 <= i < |objects| && Kept(objects[i]) && p == PhotoFor(objects[i], env, metadata))
  {
    MapKeptMembers(objects, o requires Kept(o) => PhotoFor(o, env, metadata));
  }

  /** The width and height `getPhotosForGallery` settles on for one file. */
  method PhotoDimensions(fileName: string, key: string, metadata: map<string, ObjectMetadata>)
    returns (width: Option<int>, height: Option<int>)
    ensures width == Dimensions(fileName, MetadataOf(metadata, key)).0
    ensures height == Dimensions(fileName, MetadataOf(metadata, key)).1
  {
    width, height := Some(DefaultWidth), Some(DefaultHeight);
    var hint := DimensionHint(fileName, 0);
    if hint.Some? {
      width, height := ParseInt(hint.value.0), ParseInt(hint.value.1);
    } else if key in metadata {
      var m := metadata[key].metadata;
      if m.Some? && B2.Truthy(m.value.width) && B2.Truthy(m.value.height) {
        width, height := ParseInt(m.value.width.value), ParseInt(m.value.height.value);
      }
    }
  }

  /** `getPhotosForGallery` over the listing of the gallery's prefix; `metadata` holds the objects whose metadata fetch succeeds. */
  function PhotosForGallery(listing: Result<ListResponse, string>, env: B2.Env, metadata: map<string, ObjectMetadata>)
    : Result<seq<Photo>, string>
  {
    match listing
    case Err(m) => Err(m)
    case Ok(resp) =>
      match resp.objects
      case None => Err("result.objects is not iterable")
      case Some(objects) => Ok(PhotosOf(objects, env, metadata))
  }

  /** The record built for one kept object. */
  method MakePhoto(o: ListedObject, env: B2.Env, metadata: map<string, ObjectMetadata>) returns (photo: Photo)
    requires Kept(o)
    ensures photo == PhotoFor(o, env, metadata)
  {
    var key := o.key.value;
    var width, height := PhotoDimensions(LastSegment(key, '/'), key, metadata);
    photo := PhotoRecord(key, env, (width, height));
  }

  method GetPhotosForGallery(listing: Result<ListResponse, string>, env: B2.Env, metadata: map<string, ObjectMetadata>)
    returns (r: Result<seq<Photo>, string>)
    ensures r == PhotosForGallery(listing, env, metadata)
  {
    if listing.Err? {
      return Err(listing.error);
    }
    if listing.value.objects.None? {
      return Err("result.objects is not iterable");
    }
    var objects := listing.value.objects.value;
    ghost var f := o requires Kept(o) => PhotoFor(o, env, metadata);
    var photos: seq<Photo> := [];
    var i := 0;
    while i < |objects|
      invariant 0 <= i <= |objects|
      invariant photos == MapKept(objects[..i], f)
    {
      var o := objects[i];
      assert objects[..i + 1][..i] == objects[..i];
      if HasKey(o) && o.size.Some? && o.size.value != 0 && o.lastModified.Some? {
        var key := o.key.value;
        if |Split(key, '/')| >= 3 && IsImageFile(LastSegment(key, '/')) {
          var photo := MakePhoto(o, env, metadata);
          photos := photos + [photo];
        }
      }
      i := i + 1;
    }
    assert objects[..i] == objects;
    r := Ok(photos);
  }

  /** Each photo is its own key, in its gallery (segment 1), tagged with segment 2, at the raw public URL. */
  lemma PhotoFields(o: ListedObject, env: B2.Env, metadata: map<string, ObjectMetadata>)
    requires Kept(o)
    ensures PhotoFor(o, env, metadata).id == PhotoFor(o, env, metadata).b2_file_key == o.key.value
    ensures Some(PhotoFor(o, env, metadata).gallery_id) == Segment(o.key.value, '/', 1)
    ensures PhotoFor(o, env, metadata).user_tag_id == Segment(o.key.value, '/', 2)
    ensures PhotoFor(o, env, metadata).public_url == B2.RawUrl(env, o.key.value)
    ensures PhotoFor(o, env, metadata).optimized_url == Some(B2.RawUrl(env, o.key.value))
  {
  }

  /** A photo's size is what `Dimensions` settles on for its file name and metadata. */
  lemma PhotoSize(o: ListedObject, env: B2.Env, metadata: map<string, ObjectMetadata>)
    requires Kept(o)
    ensures PhotoFor(o, env, metadata).width == Dimensions(LastSegment(o.key.value, '/'), MetadataOf(metadata, o.key.value)).0
    ensures PhotoFor(o, env, metadata).height == Dimensions(LastSegment(o.key.value, '/'), MetadataOf(metadata, o.key.value)).1
  {
  }

  /** With neither a hint nor metadata, a photo is 600×900. */
  lemma DefaultDimensions(fileName: string)
    requires DimensionHint(fileName, 0).None?
    ensures Dimensions(fileName, None) == (Some(600), Some(900))
  {
  }
}
