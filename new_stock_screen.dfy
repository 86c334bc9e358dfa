/**
 * The handlers of the "add stock" screen (app/stock/new.tsx): collecting images,
 * removing them, and `handleAdd`, which validates the form and builds the request
 * for `addStock` with the comma-separated tags parsed into a list.
 */
module NewStockScreen {
  import opened Wrappers
  import opened Text

  /**
   * The characters `String.prototype.trim` removes: ECMAScript WhiteSpace (tab, vertical
   * tab, form feed, space, no-break space, byte order mark and the Unicode Zs spaces) and
   * LineTerminator (line feed, carriage return, line and paragraph separators).
   */
  predicate IsTrimmed(c: char)
  {
    || c == '\U{0009}' || c == '\U{000B}' || c == '\U{000C}' || c == ' ' || c == '\U{00A0}' || c == '\U{FEFF}'
    || c == '\n' || c == '\r' || c == '\U{2028}' || c == '\U{2029}'
    || c == '\U{1680}' || ('\U{2000}' <= c <= '\U{200A}') || c == '\U{202F}' || c == '\U{205F}' || c == '\U{3000}'
  }

  function TrimStart(s: string): (r: string)
    ensures |r| <= |s| && r == s[|s| - |r|..]
    ensures |r| > 0 ==> !IsTrimmed(r[0])
    ensures forall i | 0 <= i < |s| - |r| :: IsTrimmed(s[i])
    decreases |s|
  {
    if |s| > 0 && IsTrimmed(s[0]) then TrimStart(s[1..]) else s
  }

  function TrimEnd(s: string): (r: string)
    ensures |r| <= |s| && r == s[..|r|]
    ensures |r| > 0 ==> !IsTrimmed(r[|r| - 1])
    ensures forall i | |r| <= i < |s| :: IsTrimmed(s[i])
    decreases |s|
  {
    if |s| > 0 && IsTrimmed(s[|s| - 1]) then TrimEnd(s[..|s| - 1]) else s
  }

  /** `s.trim()`: the longest middle part of `s` that neither starts nor ends with a trimmed character. */
  function Trim(s: string): (r: string)
    ensures |r| <= |s|
    ensures |r| > 0 ==> !IsTrimmed(r[0]) && !IsTrimmed(r[|r| - 1])
    ensures forall c | c in r :: c in s
    ensures |s| > 0 && !IsTrimmed(s[0]) && !IsTrimmed(s[|s| - 1]) ==> r == s
    ensures exists i :: MiddleAt(s, r, i)
  {
    var start := TrimStart(s);
    var r := TrimEnd(start);
    MiddleOfParts(s, start, r);
    assert forall c | c in r :: c in start;
    r
  }

  /** Trimming the start and then the end leaves a middle part of `s` with only trimmed characters around it. */
  lemma MiddleOfParts(s: string, start: string, r: string)
    requires |start| <= |s| && start == s[|s| - |start|..]
    requires forall k | 0 <= k < |s| - |start| :: IsTrimmed(s[k])
    requires |r| <= |start| && r == start[..|r|]
    requires forall k | |r| <= k < |start| :: IsTrimmed(start[k])
    ensures MiddleAt(s, r, |s| - |start|)
  {
    SliceOfSuffix(s, |s| - |start|, |r|);
    TrailingTrimmed(s, start, r);
  }

  lemma SliceOfSuffix(s: string, i: nat, n: nat)
    requires i + n <= |s|
    ensures s[i..][..n] == s[i..i + n]
  {
  }

  /** What `TrimEnd` drops from the end of `start`, the end of `s` that `start` ends it, is trimmed. */
  lemma TrailingTrimmed(s: string, start: string, r: string)
    requires |start| <= |s| && start == s[|s| - |start|..]
    requires |r| <= |start| && forall k | |r| <= k < |start| :: IsTrimmed(start[k])
    ensures forall k | |s| - |start| + |r| <= k < |s| :: IsTrimmed(s[k])
  {
    var i := |s| - |start|;
    forall k | i + |r| <= k < |s|
      ensures IsTrimmed(s[k])
    {
      assert s[k] == start[k - i];
    }
  }

  /** `r` is the part of `s` from index `i` on, with only trimmed characters before and after it. */
  predicate MiddleAt(s: string, r: string, i: int)
  {
    && 0 <= i <= |s| - |r|
    && r == s[i..i + |r|]
    && (forall k | 0 <= k < i :: IsTrimmed(s[k]))
    && (forall k | i + |r| <= k < |s| :: IsTrimmed(s[k]))
  }

  /** `.filter(Boolean)` over strings: drops the empty ones. */
  function NonEmpty(parts: seq<string>): (r: seq<string>)
    ensures forall t | t in r :: t != "" && t in parts
    ensures forall t | t in parts && t != "" :: t in r
  {
    if |parts| == 0 then []
    else (if parts[0] == "" then [] else [parts[0]]) + NonEmpty(parts[1..])
  }

  function TrimAll(parts: seq<string>): (r: seq<string>)
    ensures |r| == |parts| && forall i | 0 <= i < |r| :: r[i] == Trim(parts[i])
  {
    if |parts| == 0 then [] else [Trim(parts[0])] + TrimAll(parts[1..])
  }

  /** `tags.split(',').map(t => t.trim()).filter(Boolean)`. */
  function ParseTags(tags: string): (r: seq<string>)
    ensures forall t | t in r :: t != "" && ',' !in t
  {
    NonEmpty(TrimAll(Split(tags, ',')))
  }

  /** A trimmed, non-empty segment of a comma split has no comma and no trimmed character at either end. */
  lemma SegmentTagWellFormed(segments: seq<string>, k: nat)
    requires forall p | p in segments :: ',' !in p
    requires k < |segments| && Trim(segments[k]) != ""
    ensures var t := Trim(segments[k]); ',' !in t && !IsTrimmed(t[0]) && !IsTrimmed(t[|t| - 1])
  {
    assert segments[k] in segments;
  }

  /** Every parsed tag is non-empty, has no comma, and neither starts nor ends with a trimmed character. */
  lemma ParsedTagsWellFormed(tags: string)
    ensures forall t | t in ParseTags(tags) ::
      t != "" && ',' !in t && !IsTrimmed(t[0]) && !IsTrimmed(t[|t| - 1])
  {
    var segments := Split(tags, ',');
    var trimmed := TrimAll(segments);
    forall t | t in ParseTags(tags)
      ensures t != "" && ',' !in t && !IsTrimmed(t[0]) && !IsTrimmed(t[|t| - 1])
    {
      var k :| 0 <= k < |trimmed| && trimmed[k] == t;
      SegmentTagWellFormed(segments, k);
    }
  }

  lemma {:induction false} NonEmptyConcat(a: seq<string>, b: seq<string>)
    ensures NonEmpty(a + b) == NonEmpty(a) + NonEmpty(b)
    decreases |a|
  {
    if |a| > 0 {
      assert (a + b)[1..] == a[1..] + b;
      NonEmptyConcat(a[1..], b);
    } else {
      assert a + b == b;
    }
  }

  lemma {:induction false} TrimAllConcat(a: seq<string>, b: seq<string>)
    ensures TrimAll(a + b) == TrimAll(a) + TrimAll(b)
    decreases |a|
  {
    if |a| == 0 {
      assert a + b == b;
    } else {
      assert (a + b)[1..] == a[1..] + b;
      TrimAllConcat(a[1..], b);
    }
  }

  /**
   * Tags come out in the left-to-right order of the comma-separated segments: the tags of
   * `a,b` are the tags of `a` followed by the tags of `b`.
   */
  lemma ParseTagsInOrder(a: string, b: string)
    ensures ParseTags(a + "," + b) == ParseTags(a) + ParseTags(b)
  {
    assert a + "," + b == a + [','] + b;
    SplitConcat(a, ',', b);
    TrimAllConcat(Split(a, ','), Split(b, ','));
    NonEmptyConcat(TrimAll(Split(a, ',')), TrimAll(Split(b, ',')));
  }

  /** A comma-free segment gives its trimmed text as its one tag, or no tag when that is empty. */
  lemma ParseTagsSegment(a: string)
    requires ',' !in a
    ensures ParseTags(a) == if Trim(a) == "" then [] else [Trim(a)]
  {
    SplitPiece(a, ',');
    var t := Trim(a);
    assert TrimAll([a]) == [t];
    assert [t][1..] == [];
    assert NonEmpty([t]) == (if t == "" then [] else [t]) + NonEmpty([]);
  }

  /** An image the user picked: `id` is the `Date.now()` text at the time of picking. */
  datatype StockImage = StockImage(id: string, uri: string)

  /** `images.filter(img => img.id !== id)`. */
  function WithoutImage(images: seq<StockImage>, id: string): (r: seq<StockImage>)
    ensures |r| <= |images|
    ensures forall img | img in r :: img in images && img.id != id
    ensures forall img | img in images && img.id != id :: img in r
  {
    if |images| == 0 then []
    else (if images[0].id == id then [] else [images[0]]) + WithoutImage(images[1..], id)
  }

  /** The images that survive keep their relative order: removal distributes over concatenation. */
  lemma {:induction false} WithoutImageConcat(a: seq<StockImage>, b: seq<StockImage>, id: string)
    ensures WithoutImage(a + b, id) == WithoutImage(a, id) + WithoutImage(b, id)
    decreases |a|
  {
    if |a| == 0 {
      assert a + b == b;
    } else {
      assert (a + b)[1..] == a[1..] + b;
      WithoutImageConcat(a[1..], b, id);
    }
  }

  /** Removing an image id that no image has changes nothing. */
  lemma {:induction false} RemoveUnknownImage(images: seq<StockImage>, id: string)
    requires forall img | img in images :: img.id != id
    ensures WithoutImage(images, id) == images
    decreases |images|
  {
    if |images| > 0 {
      assert forall img | img in images[1..] :: img in images;
      RemoveUnknownImage(images[1..], id);
      assert [images[0]] + images[1..] == images;
    }
  }

  /** `images.map(img => img.uri)`. */
  function Uris(images: seq<StockImage>): (r: seq<string>)
    ensures |r| == |images| && forall i | 0 <= i < |r| :: r[i] == images[i].uri
  {
    if |images| == 0 then [] else [images[0].uri] + Uris(images[1..])
  }

  /** Why `handleAdd` refuses, in the order it checks. */
  datatype FormError = MissingName | MissingImage

  /** The argument of the `addStock` call. */
  datatype NewStock = NewStock(name: string, isPublic: bool, tags: seq<string>, images: seq<string>)

  datatype AddOutcome = Rejected(error: FormError) | Submitted(request: NewStock)

  /** The form state of the screen. */
  class AddStockForm {
    var name: string
    var isPublic: bool
    var images: seq<StockImage>
    var tags: string

    constructor ()
      ensures name == "" && isPublic && images == [] && tags == ""
    {
      name := "";
      isPublic := true;
      images := [];
      tags := "";
    }

    /** The add button's `disabled` condition: `!name.trim() || images.length === 0`. */
    predicate AddDisabled()
      reads this
    {
      Trim(name) == "" || |images| == 0
    }

    /**
     * The tail of `pickImage` and `takePhoto`: when the picker returned an asset (`picked`
     * is its uri), one image with id `now` goes to the end; otherwise nothing changes.
     */
    method AddPickedImage(picked: Option<string>, now: string)
      modifies this
      ensures picked.Some? ==> images == old(images) + [StockImage(now, picked.value)]
      ensures picked.None? ==> images == old(images)
      ensures name == old(name) && isPublic == old(isPublic) && tags == old(tags)
    {
      if picked.Some? {
        images := images + [StockImage(now, picked.value)];
      }
    }

    /** `removeImage(id)`: every image with that id goes, the others stay in order. */
    method RemoveImage(id: string)
      modifies this
      ensures images == WithoutImage(old(images), id)
      ensures forall img | img in images :: img.id != id
      ensures name == old(name) && isPublic == old(isPublic) && tags == old(tags)
    {
      images := WithoutImage(images, id);
    }

    /**
     * `handleAdd()`: refuses with MissingName when the trimmed name is empty, else with
     * MissingImage when there is no image; otherwise sends the trimmed name, the parsed tags
     * and the image uris in their current order. It refuses exactly when the button is disabled.
     */
    method HandleAdd() returns (outcome: AddOutcome)
      ensures outcome.Rejected? <==> AddDisabled()
      ensures Trim(name) == "" ==> outcome == Rejected(MissingName)
      ensures Trim(name) != "" && |images| == 0 ==> outcome == Rejected(MissingImage)
      ensures outcome.Submitted? ==>
        outcome.request == NewStock(Trim(name), isPublic, ParseTags(tags), Uris(images))
    {
      if Trim(name) == "" {
        return Rejected(MissingName);
      }
      if |images| == 0 {
        return Rejected(MissingImage);
      }
      var tagList := ParseTags(tags);
      outcome := Submitted(NewStock(Trim(name), isPublic, tagList, Uris(images)));
    }
  }
}
