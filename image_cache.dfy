/** The downloaded-image side of manapoolsheet.py: the cache key built by
    generate_image_key, download_card_image over a filesystem given as the
    set of paths that exist (with a log of the URLs requested), and the
    image_cache dictionary that main consults and heals when a cached file
    has disappeared. */
module Images {
  import opened Text

  /** The placeholder the script uses for "no image". */
  const NotAvailable := "N/A"

  /** IMAGES_DIR */
  const ImagesDir := "images"

  // ---------------------------------------------------------------- keys

  /** The card name with every ' ' and every '/' turned into '_'. */
  function SafeName(name: string): (r: string)
    ensures |r| == |name|
    ensures forall i :: 0 <= i < |r| ==> r[i] != ' ' && r[i] != '/'
    ensures forall i :: 0 <= i < |r| ==> name[i] != ' ' && name[i] != '/' ==> r[i] == name[i]
  {
    ReplaceChar(ReplaceChar(name, ' ', '_'), '/', '_')
  }

  /** generate_image_key: upper-cased set code, collector number and safe
      name, joined by '_'. */
  function ImageKey(name: string, setCode: string, number: string): string {
    Upper(setCode) + "_" + number + "_" + SafeName(name)
  }

  predicate NotUnderscore(c: char) { c != '_' }

  /** Reads a key back as (set part, collector number, safe name), cutting
      at its first two underscores. */
  function SplitImageKey(key: string): KeyParts {
    var a := Span(key, NotUnderscore);
    if a == |key| then NoParts
    else
      var rest := key[a + 1..];
      var b := Span(rest, NotUnderscore);
      if b == |rest| then NoParts
      else Parts(key[..a], rest[..b], rest[b + 1..])
  }

  datatype KeyParts = NoParts | Parts(setPart: string, number: string, safeName: string)

  lemma UpperKeepsUnderscoreFree(s: string)
    requires forall i :: 0 <= i < |s| ==> s[i] != '_'
    ensures forall i :: 0 <= i < |Upper(s)| ==> Upper(s)[i] != '_'
  {
  }

  /** Cutting x + "_" + y at its first underscore gives x and y back. */
  lemma CutAtUnderscore(x: string, y: string)
    requires forall i :: 0 <= i < |x| ==> x[i] != '_'
    ensures Span(x + "_" + y, NotUnderscore) == |x|
    ensures (x + "_" + y)[..|x|] == x && (x + "_" + y)[|x| + 1..] == y
  {
    SpanAtFirstFailure(x, '_', y, NotUnderscore);
    assert x + "_" + y == x + ['_'] + y;
  }

  /** SplitImageKey reads a + "_" + b + "_" + c back as its three parts
      whenever a and b hold no '_'. */
  lemma SplitJoinedKey(a: string, b: string, c: string)
    requires forall i :: 0 <= i < |a| ==> a[i] != '_'
    requires forall i :: 0 <= i < |b| ==> b[i] != '_'
    ensures SplitImageKey(a + "_" + b + "_" + c) == Parts(a, b, c)
  {
    var rest := b + "_" + c;
    assert a + "_" + b + "_" + c == a + "_" + rest;
    CutAtUnderscore(a, rest);
    CutAtUnderscore(b, c);
  }

  /** With a set code and a collector number free of '_' (as real ones
      are), the key determines the upper-cased set, the number and the
      safe name: the key is a faithful encoding of those three. */
  lemma SplitImageKeyOfImageKey(name: string, setCode: string, number: string)
    requires forall i :: 0 <= i < |setCode| ==> setCode[i] != '_'
    requires forall i :: 0 <= i < |number| ==> number[i] != '_'
    ensures SplitImageKey(ImageKey(name, setCode, number)) == Parts(Upper(setCode), number, SafeName(name))
  {
    UpperKeepsUnderscoreFree(setCode);
    SplitJoinedKey(Upper(setCode), number, SafeName(name));
  }

  /** Two cards get the same key only if their upper-cased sets, numbers
      and safe names agree. */
  lemma ImageKeyDistinguishes(n1: string, s1: string, c1: string, n2: string, s2: string, c2: string)
    requires forall i :: 0 <= i < |s1| ==> s1[i] != '_'
    requires forall i :: 0 <= i < |c1| ==> c1[i] != '_'
    requires forall i :: 0 <= i < |s2| ==> s2[i] != '_'
    requires forall i :: 0 <= i < |c2| ==> c2[i] != '_'
    requires ImageKey(n1, s1, c1) == ImageKey(n2, s2, c2)
    ensures Upper(s1) == Upper(s2) && c1 == c2 && SafeName(n1) == SafeName(n2)
  {
    SplitImageKeyOfImageKey(n1, s1, c1);
    SplitImageKeyOfImageKey(n2, s2, c2);
  }

  /** The converse does not separate names that differ only in ' ' versus
      '/': "A B" and "A/B" share a key in every set. */
  lemma SpaceAndSlashShareAKey(setCode: string, number: string)
    ensures ImageKey("A B", setCode, number) == ImageKey("A/B", setCode, number)
  {
    assert SafeName("A B") == "A_B";
    assert SafeName("A/B") == "A_B";
  }

  /** The file a key is stored in: images/<key>.jpg */
  function ImagePath(key: string): string {
    ImagesDir + "/" + key + ".jpg"
  }

  // ---------------------------------------------------------------- the disk

  /** The images directory and the network as download_card_image sees
      them: the paths that exist, and the URLs requested so far. */
  class ImageStore {
    var files: set<string>
    var requested: seq<string>

    constructor(existing: set<string>)
      ensures files == existing && requested == []
    {
      files := existing;
      requested := [];
    }

    /** download_card_image. `reachable` says which URLs answer with a
        success status; a failed request yields "N/A" and writes nothing. */
    method Download(url: string, key: string, reachable: string -> bool) returns (path: string)
      modifies this
      // whatever comes back names an existing file, or is "N/A"
      ensures path == NotAvailable || path in files
      ensures old(files) <= files
      // no URL: nothing is requested
      ensures url == NotAvailable ==> path == NotAvailable && unchanged(this)
      // the file is already there: nothing is requested
      ensures url != NotAvailable && ImagePath(key) in old(files) ==>
        path == ImagePath(key) && unchanged(this)
      // otherwise exactly one request, and the file exists iff it succeeded
      ensures url != NotAvailable && ImagePath(key) !in old(files) ==>
        && requested == old(requested) + [url]
        && (reachable(url) ==> path == ImagePath(key) && files == old(files) + {path})
        && (!reachable(url) ==> path == NotAvailable && files == old(files))
    {
      if url == NotAvailable {
        return NotAvailable;
      }
      var filePath := ImagePath(key);
      if filePath in files {
        return filePath;
      }
      requested := requested + [url];
      if reachable(url) {
        files := files + {filePath};
        return filePath;
      }
      return NotAvailable;
    }
  }

  // ---------------------------------------------------------------- the cache

  /** image_cache: image key to the local path last recorded for it. */
  class ImageCache {
    var entries: map<string, string>

    constructor(loaded: map<string, string>)
      ensures entries == loaded
    {
      entries := loaded;
    }

    /** The cache step of main for one line item whose Scryfall URL is not
        "N/A": a hit on an existing file is used as is; a hit on a vanished
        file, or a miss, downloads and records the result. */
    method LocalImage(url: string, key: string, store: ImageStore, reachable: string -> bool) returns (path: string)
      requires url != NotAvailable
      modifies this, store
      // afterwards the key is recorded with what was returned, which is an
      // existing file or "N/A"
      ensures entries == old(entries)[key := path]
      ensures path == NotAvailable || path in store.files
      // the only file that can appear is this key's image
      ensures old(store.files) <= store.files <= old(store.files) + {ImagePath(key)}
      // a hit on a file that still exists: no download, nothing changes
      ensures key in old(entries) && old(entries)[key] in old(store.files) ==>
        path == old(entries)[key] && unchanged(this) && unchanged(store)
      // otherwise the download decides
      ensures !(key in old(entries) && old(entries)[key] in old(store.files)) ==>
        && (ImagePath(key) in old(store.files) ==> path == ImagePath(key) && unchanged(store))
        && (ImagePath(key) !in old(store.files) ==>
              && store.requested == old(store.requested) + [url]
              && (reachable(url) <==> path != NotAvailable))
    {
      if key in entries && entries[key] in store.files {
        path := entries[key];
        return;
      }
      path := store.Download(url, key, reachable);
      entries := entries[key := path];
    }
  }
}
