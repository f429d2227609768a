/** The image folder as the stitcher sees it: a directory listing of file
    names with the pixel size an image decoder reports for each, Python's
    order on names, the extension filter and the sorted selection that
    both `stitch_images` and `get_estimated_image_size` start from. */
module Listing {

  /** One directory entry: its file name and the width and height that
      opening it as an image reports. */
  datatype ImageFile = ImageFile(name: string, width: nat, height: nat)

  /** The uncaught exceptions that end the script. */
  datatype Failure =
    | EmptyListing   // `os.listdir(folder)[0]` on an empty folder
    | NoImages       // `images[0]` on an empty filtered list
    | ZeroImageSize  // floor division by a per-image byte count of zero
    | ZeroBatchSize  // `range(0, n, 0)`

  datatype Result<T> = Ok(value: T) | Err(error: Failure)

  // ---------------------------------------------------------------------
  // Python's `<=` on str: lexicographic by code point, a proper prefix first

  /** The textbook lexicographic order: `a` is a prefix of `b`, or at the
      first position where they differ `a` has the smaller character. */
  ghost predicate Lexicographic(a: string, b: string)
  {
    (|a| <= |b| && a == b[..|a|])
    || exists k :: 0 <= k < |a| && k < |b| && a[..k] == b[..k] && a[k] < b[k]
  }

  /** `Lexicographic` unfolds one character at a time. */
  lemma LexicographicByHead(a: string, b: string)
    ensures a == [] ==> Lexicographic(a, b)
    ensures a != [] && b == [] ==> !Lexicographic(a, b)
    ensures a != [] && b != [] ==>
              (Lexicographic(a, b) <==> a[0] < b[0] || (a[0] == b[0] && Lexicographic(a[1..], b[1..])))
  {
    if a != [] && b != [] {
      if a[0] == b[0] && Lexicographic(a[1..], b[1..]) {
        if !(|a[1..]| <= |b[1..]| && a[1..] == b[1..][..|a[1..]|]) {
          var k :| 0 <= k < |a[1..]| && k < |b[1..]| && a[1..][..k] == b[1..][..k] && a[1..][k] < b[1..][k];
          assert a[..k + 1] == [a[0]] + a[1..][..k];
          assert b[..k + 1] == [b[0]] + b[1..][..k];
          assert a[k + 1] < b[k + 1];
        } else {
          assert a == [a[0]] + a[1..] && b[..|a|] == [b[0]] + b[1..][..|a[1..]|];
        }
      }
      if Lexicographic(a, b) && a[0] >= b[0] {
        assert a[0] == b[0] by {
          if |a| <= |b| && a == b[..|a|] {
            assert a[0] == b[..|a|][0];
          } else {
            var k :| 0 <= k < |a| && k < |b| && a[..k] == b[..k] && a[k] < b[k];
            if k > 0 {
              assert a[..k][0] == b[..k][0];
            }
          }
        }
        if |a| <= |b| && a == b[..|a|] {
          assert a[1..] == b[1..][..|a[1..]|];
        } else {
          var k :| 0 <= k < |a| && k < |b| && a[..k] == b[..k] && a[k] < b[k];
          assert k > 0;
          assert a[1..][..k - 1] == a[..k][1..] == b[..k][1..] == b[1..][..k - 1];
          assert a[1..][k - 1] < b[1..][k - 1];
        }
      }
    }
  }

  /** Python's `<=` on two `str` values. */
  predicate NameLe(a: string, b: string): (r: bool)
    ensures r <==> Lexicographic(a, b)
    decreases |a|
  {
    LexicographicByHead(a, b);
    a == [] || (b != [] && (a[0] < b[0] || (a[0] == b[0] && NameLe(a[1..], b[1..]))))
  }

  lemma {:induction false} NameLeReflexive(a: string)
    ensures NameLe(a, a)
    decreases |a|
  {
    if a != [] {
      NameLeReflexive(a[1..]);
    }
  }

  lemma {:induction false} NameLeTotal(a: string, b: string)
    ensures NameLe(a, b) || NameLe(b, a)
    decreases |a|
  {
    if a != [] && b != [] && a[0] == b[0] {
      NameLeTotal(a[1..], b[1..]);
    }
  }

  lemma {:induction false} NameLeAntisymmetric(a: string, b: string)
    requires NameLe(a, b) && NameLe(b, a)
    ensures a == b
    decreases |a|
  {
    if a != [] && b != [] {
      NameLeAntisymmetric(a[1..], b[1..]);
      assert a == [a[0]] + a[1..] && b == [b[0]] + b[1..];
    }
  }

  lemma {:induction false} NameLeTransitive(a: string, b: string, c: string)
    requires NameLe(a, b) && NameLe(b, c)
    ensures NameLe(a, c)
    decreases |a|
  {
    if a != [] && a[0] == b[0] && b[0] == c[0] {
      NameLeTransitive(a[1..], b[1..], c[1..]);
    }
  }

  /** A common prefix does not decide the order: comparison goes on past it. */
  lemma {:induction false} NameLeCommonPrefix(p: string, a: string, b: string)
    ensures NameLe(p + a, p + b) == NameLe(a, b)
    decreases |p|
  {
    if p != [] {
      assert (p + a)[0] == p[0] == (p + b)[0];
      assert (p + a)[1..] == p[1..] + a;
      assert (p + b)[1..] == p[1..] + b;
      NameLeCommonPrefix(p[1..], a, b);
    } else {
      assert p + a == a && p + b == b;
    }
  }

  /** Order is by characters, not by numeric value: the tenth image of the
      downloader's naming scheme sorts before the second. */
  lemma TenthNameSortsBeforeSecond()
    ensures NameLe("image_10.tiff", "image_2.tiff")
    ensures !NameLe("image_2.tiff", "image_10.tiff")
  {
    assert "image_10.tiff" == "image_" + "10.tiff";
    assert "image_2.tiff" == "image_" + "2.tiff";
    NameLeCommonPrefix("image_", "10.tiff", "2.tiff");
    NameLeCommonPrefix("image_", "2.tiff", "10.tiff");
  }

  // ---------------------------------------------------------------------
  // The extension filter: `img.endswith((".jpg", ".png", ".tiff"))`

  predicate EndsWith(s: string, suffix: string)
  {
    |suffix| <= |s| && s[|s| - |suffix|..] == suffix
  }

  /** `name.endswith((".jpg", ".png", ".tiff"))`: some suffix of the name is
      one of the three extensions. Case-sensitive: ".JPG", ".jpeg" and
      ".tif" are not selected. */
  predicate HasImageExtension(name: string): (r: bool)
    ensures r <==> exists n :: 0 <= n <= |name| && name[n..] in [".jpg", ".png", ".tiff"]
  {
    var r := EndsWith(name, ".jpg") || EndsWith(name, ".png") || EndsWith(name, ".tiff");
    assert r ==> name[|name| - 4..] in [".jpg", ".png", ".tiff"] || name[|name| - 5..] in [".jpg", ".png", ".tiff"];
    r
  }

  /** The list comprehension: the entries with an image extension, in
      listing order. */
  function FilterImages(listing: seq<ImageFile>): (r: seq<ImageFile>)
    ensures forall e :: e in r <==> e in listing && HasImageExtension(e.name)
    ensures |r| <= |listing|
  {
    if listing == [] then []
    else
      assert listing == [listing[0]] + listing[1..];
      (if HasImageExtension(listing[0].name) then [listing[0]] else []) + FilterImages(listing[1..])
  }

  /** Filtering keeps every image entry as often as the listing has it and
      drops every other entry. */
  lemma {:induction false} FilterImagesCount(listing: seq<ImageFile>, x: ImageFile)
    ensures multiset(FilterImages(listing))[x] ==
            if HasImageExtension(x.name) then multiset(listing)[x] else 0
  {
    if listing != [] {
      assert listing == [listing[0]] + listing[1..];
      FilterImagesCount(listing[1..], x);
    }
  }

  // ---------------------------------------------------------------------
  // `sorted(...)` on the selected names

  /** Each name is at most the next one. */
  predicate SortedByName(s: seq<ImageFile>)
  {
    |s| <= 1 || (NameLe(s[0].name, s[1].name) && SortedByName(s[1..]))
  }

  /** The head of a name-sorted list has the least name in it. */
  lemma {:induction false} SortedHeadIsLeast(s: seq<ImageFile>, x: ImageFile)
    requires SortedByName(s) && x in s
    ensures NameLe(s[0].name, x.name)
  {
    if x == s[0] {
      NameLeReflexive(x.name);
    } else {
      assert x in s[1..];
      SortedHeadIsLeast(s[1..], x);
      NameLeTransitive(s[0].name, s[1].name, x.name);
    }
  }

  /** Sorted means ascending between any two positions, not only
      neighbouring ones. */
  lemma SortedAscending(s: seq<ImageFile>, i: nat, j: nat)
    requires SortedByName(s) && i <= j < |s|
    ensures NameLe(s[i].name, s[j].name)
  {
    SortedSuffix(s, i);
    assert s[i..][0] == s[i] && s[j] in s[i..];
    SortedHeadIsLeast(s[i..], s[j]);
  }

  lemma {:induction false} SortedSuffix(s: seq<ImageFile>, i: nat)
    requires SortedByName(s) && i <= |s|
    ensures SortedByName(s[i..])
  {
    if i > 0 {
      SortedSuffix(s[1..], i - 1);
      assert s[1..][i - 1..] == s[i..];
    }
  }

  /** Insertion into a list kept in name order; `x` goes before the first
      entry whose name is not smaller, so equal names keep their order. */
  function InsertByName(x: ImageFile, s: seq<ImageFile>): (r: seq<ImageFile>)
    ensures multiset(r) == multiset(s) + multiset{x}
    ensures |r| == |s| + 1
    ensures r[0] == x || (s != [] && r[0] == s[0])
  {
    if s == [] then [x]
    else if NameLe(x.name, s[0].name) then [x] + s
    else
      assert s == [s[0]] + s[1..];
      [s[0]] + InsertByName(x, s[1..])
  }

  lemma {:induction false} InsertByNameSorted(x: ImageFile, s: seq<ImageFile>)
    requires SortedByName(s)
    ensures SortedByName(InsertByName(x, s))
  {
    if s != [] && !NameLe(x.name, s[0].name) {
      NameLeTotal(x.name, s[0].name);
      InsertByNameSorted(x, s[1..]);
      var r := InsertByName(x, s);
      assert r == [s[0]] + InsertByName(x, s[1..]);
      assert r[1..] == InsertByName(x, s[1..]);
    }
  }

  /** The sorted order of the entries, by name. */
  function SortByName(s: seq<ImageFile>): (r: seq<ImageFile>)
    ensures SortedByName(r)
    ensures multiset(r) == multiset(s)
  {
    if s == [] then []
    else
      assert s == [s[0]] + s[1..];
      var rest := SortByName(s[1..]);
      InsertByNameSorted(s[0], rest);
      InsertByName(s[0], rest)
  }

  /** `sorted([img for img in os.listdir(folder) if img.endswith(...)])`:
      exactly the image entries of the listing, in ascending name order. */
  function SelectImages(listing: seq<ImageFile>): (r: seq<ImageFile>)
    ensures SortedByName(r)
    ensures forall e :: e in r <==> e in listing && HasImageExtension(e.name)
    ensures multiset(r) == multiset(FilterImages(listing))
  {
    var r := SortByName(FilterImages(listing));
    assert forall e :: e in r <==> e in multiset(r);
    r
  }

  /** The selection is empty exactly when no entry has an image extension. */
  lemma SelectImagesEmptyIff(listing: seq<ImageFile>)
    ensures SelectImages(listing) == [] <==> forall e :: e in listing ==> !HasImageExtension(e.name)
  {
    var s := SelectImages(listing);
    if s != [] {
      assert s[0] in s;
    }
  }

  /** The first selected entry has the least name of all image entries. */
  lemma FirstSelectedIsLeast(listing: seq<ImageFile>, e: ImageFile)
    requires e in listing && HasImageExtension(e.name)
    ensures SelectImages(listing) != []
    ensures NameLe(SelectImages(listing)[0].name, e.name)
  {
    SortedHeadIsLeast(SelectImages(listing), e);
  }

  // ---------------------------------------------------------------------
  // Independence from the order `os.listdir` happens to return

  /** No two distinct entries share a name, as in a directory. */
  ghost predicate NamesUnique(m: multiset<ImageFile>)
  {
    forall a, b :: a in m && b in m && a.name == b.name ==> a == b
  }

  lemma MultisetTail(s: seq<ImageFile>)
    requires s != []
    ensures multiset(s) == multiset{s[0]} + multiset(s[1..])
  {
    assert s == [s[0]] + s[1..];
  }

  lemma NamesUniqueSub(m: multiset<ImageFile>, sub: multiset<ImageFile>)
    requires NamesUnique(m) && sub <= m
    ensures NamesUnique(sub)
  {
  }

  /** Two name-sorted lists of the same entries, no two with one name,
      start with the same entry. */
  lemma SortedSameHead(s1: seq<ImageFile>, s2: seq<ImageFile>)
    requires SortedByName(s1) && SortedByName(s2) && s1 != []
    requires multiset(s1) == multiset(s2)
    requires NamesUnique(multiset(s1))
    ensures s2 != [] && s1[0] == s2[0]
  {
    assert |s2| == |multiset(s2)| == |s1|;
    var a, b := s1[0], s2[0];
    assert a in multiset(s2) && b in multiset(s1);
    SortedHeadIsLeast(s2, a);
    SortedHeadIsLeast(s1, b);
    NameLeAntisymmetric(a.name, b.name);
  }

  /** Two name-sorted lists of the same entries, no two with one name, are
      the same list. */
  lemma {:induction false} SortedByNameUnique(s1: seq<ImageFile>, s2: seq<ImageFile>)
    requires SortedByName(s1) && SortedByName(s2)
    requires multiset(s1) == multiset(s2)
    requires NamesUnique(multiset(s1))
    ensures s1 == s2
  {
    if s1 == [] {
      assert |s2| == |multiset(s2)| == 0;
    } else {
      SortedSameHead(s1, s2);
      var t1, t2 := s1[1..], s2[1..];
      MultisetTail(s1);
      MultisetTail(s2);
      NamesUniqueSub(multiset(s1), multiset(t1));
      SortedByNameUnique(t1, t2);
      assert s1 == [s1[0]] + t1 && s2 == [s2[0]] + t2;
    }
  }

  lemma FilterImagesSameEntries(l1: seq<ImageFile>, l2: seq<ImageFile>)
    requires multiset(l1) == multiset(l2)
    ensures multiset(FilterImages(l1)) == multiset(FilterImages(l2))
  {
    forall x
      ensures multiset(FilterImages(l1))[x] == multiset(FilterImages(l2))[x]
    {
      FilterImagesCount(l1, x);
      FilterImagesCount(l2, x);
    }
  }

  lemma FilterImagesSubset(listing: seq<ImageFile>)
    ensures multiset(FilterImages(listing)) <= multiset(listing)
  {
    forall x
      ensures multiset(FilterImages(listing))[x] <= multiset(listing)[x]
    {
      FilterImagesCount(listing, x);
    }
  }

  /** The selection depends on which entries the folder holds, not on the
      order in which the listing reports them. */
  lemma SelectImagesIgnoresListingOrder(l1: seq<ImageFile>, l2: seq<ImageFile>)
    requires multiset(l1) == multiset(l2)
    requires NamesUnique(multiset(l1))
    ensures SelectImages(l1) == SelectImages(l2)
  {
    FilterImagesSameEntries(l1, l2);
    FilterImagesSubset(l1);
    var s1 := SelectImages(l1);
    NamesUniqueSub(multiset(l1), multiset(s1));
    SortedByNameUnique(s1, SelectImages(l2));
  }
}
