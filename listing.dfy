/** Which directory entries are treated as images: the names whose
    lower-cased form ends in ".jpg", ".jpeg" or ".png", kept in listing
    order. */
module Listing {

  function LowerChar(c: char): (d: char)
    ensures 'A' <= c <= 'Z' ==> d as int == c as int + 32
    ensures !('A' <= c <= 'Z') ==> d == c
  {
    if 'A' <= c <= 'Z' then (c as int + 32) as char else c
  }

  /** ASCII lower-casing. */
  function Lower(s: string): (t: string)
    ensures |t| == |s|
    ensures forall i :: 0 <= i < |s| ==> t[i] == LowerChar(s[i])
  {
    seq(|s|, i requires 0 <= i < |s| => LowerChar(s[i]))
  }

  predicate EndsWith(s: string, suffix: string) {
    |suffix| <= |s| && s[|s| - |suffix|..] == suffix
  }

  /** An image name carries a dot-extension of three or four letters, and
      any name ending in ".png" in any mix of case qualifies. */
  predicate IsImageName(name: string): (r: bool)
    ensures r ==> |name| >= 4 && (name[|name| - 4] == '.' || (|name| >= 5 && name[|name| - 5] == '.'))
    ensures |name| >= 4 && Lower(name[|name| - 4..]) == ".png" ==> r
  {
    var l := Lower(name);
    EndsWith(l, ".jpg") || EndsWith(l, ".jpeg") || EndsWith(l, ".png")
  }

  /** The image files of a directory listing, in listing order. */
  function ImageFiles(listing: seq<string>): (r: seq<string>)
    ensures |r| <= |listing|
    ensures forall n :: n in r <==> n in listing && IsImageName(n)
    ensures forall n :: multiset(r)[n] == if IsImageName(n) then multiset(listing)[n] else 0
  {
    if listing == [] then []
    else
      assert listing == [listing[0]] + listing[1..];
      (if IsImageName(listing[0]) then [listing[0]] else []) + ImageFiles(listing[1..])
  }

  /** `a` is `b` with some elements left out, the rest in their order: each
      element of `b` is either matched by the next element of `a` or
      skipped. */
  predicate IsSubsequence<T(==)>(a: seq<T>, b: seq<T>)
    decreases |b|
  {
    if b == [] then a == []
    else (a != [] && a[0] == b[0] && IsSubsequence(a[1..], b[1..])) || IsSubsequence(a, b[1..])
  }

  /** The filter keeps the relative order of the listing. */
  lemma {:induction false} ImageFilesIsSubsequence(listing: seq<string>)
    ensures IsSubsequence(ImageFiles(listing), listing)
  {
    if listing != [] {
      ImageFilesIsSubsequence(listing[1..]);
      var rest := ImageFiles(listing[1..]);
      if IsImageName(listing[0]) {
        assert ImageFiles(listing) == [listing[0]] + rest;
        assert ([listing[0]] + rest)[1..] == rest;
      } else {
        assert ImageFiles(listing) == rest;
      }
    }
  }

  /** A listing of image names only passes the filter unchanged. */
  lemma {:induction false} ImageFilesKeepsImages(s: seq<string>)
    requires forall i :: 0 <= i < |s| ==> IsImageName(s[i])
    ensures ImageFiles(s) == s
  {
    if s != [] {
      ImageFilesKeepsImages(s[1..]);
      assert s == [s[0]] + s[1..];
    }
  }

  /** Filtering a filtered listing changes nothing. */
  lemma ImageFilesIdempotent(listing: seq<string>)
    ensures ImageFiles(ImageFiles(listing)) == ImageFiles(listing)
  {
    var r := ImageFiles(listing);
    assert forall i :: 0 <= i < |r| ==> r[i] in r;
    ImageFilesKeepsImages(r);
  }

  /** The extension test ignores case. */
  lemma CaseInsensitive(name: string)
    ensures IsImageName(Lower(name)) == IsImageName(name)
  {
    assert Lower(Lower(name)) == Lower(name);
  }

  lemma NameScenarios()
    ensures IsImageName("IMG_0001.JPG")
    ensures IsImageName("holiday.Jpeg")
    ensures IsImageName("logo.png")
    ensures !IsImageName("notes.txt")
    ensures !IsImageName("jpg")
    ensures !IsImageName("photo.gif")
  {
    assert Lower("IMG_0001.JPG")[8..] == ".jpg";
    assert Lower("holiday.Jpeg")[7..] == ".jpeg";
    assert Lower("logo.png")[4..] == ".png";
    assert Lower("notes.txt")[5..][1] != "jpg"[0];
    assert Lower("notes.txt")[4..][1] != ".jpeg"[1];
    assert Lower("photo.gif")[5..][1] != ".jpg"[1];
    assert Lower("photo.gif")[4..][2] != ".jpeg"[2];
  }
}
