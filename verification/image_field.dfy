/**
  The board-image field. The image picker packs the five attributes of the
  chosen image into one string separated by `|`; board creation splits that
  string again with JavaScript's `String.prototype.split` and refuses a value
  whose first five pieces are not all non-empty.
 */
module ImageField {
  import opened Wrappers
  import opened Session

  const Sep: char := '|'

  /** The image columns of a board. */
  datatype Image = Image(id: string, thumbUrl: string, fullUrl: string, linkHtml: string, userName: string)

  /** `parts.join('|')` */
  function Join(parts: seq<string>): string
    decreases |parts|
  {
    if |parts| == 0 then ""
    else if |parts| == 1 then parts[0]
    else parts[0] + [Sep] + Join(parts[1..])
  }

  /**
    `s.split('|')`: the maximal separator-free pieces between separators,
    so one piece more than there are separators ("" gives [""]).
   */
  function Split(s: string): (parts: seq<string>)
    ensures |parts| >= 1
    ensures forall i :: 0 <= i < |parts| ==> Sep !in parts[i]
    ensures Join(parts) == s
    decreases |s|
  {
    if |s| == 0 then [""]
    else
      var rest := Split(s[1..]);
      if s[0] == Sep then
        assert ([""] + rest)[1..] == rest;
        [""] + rest
      else
        var parts := [[s[0]] + rest[0]] + rest[1..];
        assert parts[1..] == rest[1..];
        assert |rest| > 1 ==> Join(rest) == rest[0] + [Sep] + Join(rest[1..]);
        assert s == [s[0]] + s[1..];
        parts
  }

  /** A piece the destructuring `[a, b, c, d, e] = parts` reads; a missing piece is `undefined`, here "". */
  function Field(parts: seq<string>, i: int): string {
    if 0 <= i < |parts| then parts[i] else ""
  }

  /** What the image picker emits: `${id}|${thumb}|${full}|${html}|${userName}`. */
  function Encode(img: Image): string {
    img.id + [Sep] + img.thumbUrl + [Sep] + img.fullUrl + [Sep] + img.linkHtml + [Sep] + img.userName
  }

  function Fields(img: Image): seq<string> {
    [img.id, img.thumbUrl, img.fullUrl, img.linkHtml, img.userName]
  }

  /** An image the picker can offer so that it survives the trip through the board form. */
  predicate WellFormed(img: Image) {
    forall i :: 0 <= i < 5 ==> Fields(img)[i] != "" && Sep !in Fields(img)[i]
  }

  /** The encoded value is the five fields joined by `|`, in the order id, thumb, full, html, user name. */
  lemma EncodeIsJoin(img: Image)
    ensures Encode(img) == Join(Fields(img))
  {
    var f := Fields(img);
    var f4, f3, f2, f1 := [img.userName], [img.linkHtml, img.userName],
      [img.fullUrl, img.linkHtml, img.userName], [img.thumbUrl, img.fullUrl, img.linkHtml, img.userName];
    assert f3[1..] == f4 && f2[1..] == f3 && f1[1..] == f2 && f[1..] == f1;
    assert Join(f3) == img.linkHtml + [Sep] + img.userName;
    assert Join(f2) == img.fullUrl + [Sep] + Join(f3);
    assert Join(f1) == img.thumbUrl + [Sep] + Join(f2);
    assert Join(f) == img.id + [Sep] + Join(f1);
  }

  /**
    The parsing step of board creation: split, destructure the first five
    pieces and refuse the value with BAD_REQUEST when any is missing or empty.
   */
  function Parse(value: string): (r: Result<Image, Code>)
    ensures r.Ok? <==> forall i :: 0 <= i < 5 ==> Field(Split(value), i) != ""
    ensures r.Err? ==> r.error == BadRequest
    ensures r.Ok? ==> |Split(value)| >= 5 && Fields(r.value) == Split(value)[..5]
    ensures r.Ok? ==> Encode(r.value) == Join(Split(value)[..5])
  {
    var parts := Split(value);
    if Field(parts, 0) == "" || Field(parts, 1) == "" || Field(parts, 2) == ""
       || Field(parts, 3) == "" || Field(parts, 4) == "" then
      var missing := if Field(parts, 0) == "" then 0 else if Field(parts, 1) == "" then 1
        else if Field(parts, 2) == "" then 2 else if Field(parts, 3) == "" then 3 else 4;
      assert Field(Split(value), missing) == "";
      Err(BadRequest)
    else
      var img := Image(parts[0], parts[1], parts[2], parts[3], parts[4]);
      EncodeIsJoin(img);
      Ok(img)
  }

  /** A separator-free string is a single piece. */
  lemma {:induction false} SplitPiece(p: string)
    requires Sep !in p
    ensures Split(p) == [p]
    decreases |p|
  {
    if |p| > 0 {
      SplitPiece(p[1..]);
      assert p == [p[0]] + p[1..];
    }
  }

  /** Splitting distributes over a separator: the pieces of `a|b` are those of `a` then those of `b`. */
  lemma {:induction false} SplitAppend(a: string, b: string)
    ensures Split(a + [Sep] + b) == Split(a) + Split(b)
    decreases |a|
  {
    var s := a + [Sep] + b;
    if |a| == 0 {
      assert s[1..] == b;
    } else {
      assert s[1..] == a[1..] + [Sep] + b;
      SplitAppend(a[1..], b);
    }
  }

  /** Split undoes Join when no piece contains the separator. */
  lemma {:induction false} SplitJoin(parts: seq<string>)
    requires |parts| >= 1
    requires forall i :: 0 <= i < |parts| ==> Sep !in parts[i]
    ensures Split(Join(parts)) == parts
    decreases |parts|
  {
    SplitPiece(parts[0]);
    if |parts| > 1 {
      SplitJoin(parts[1..]);
      SplitAppend(parts[0], Join(parts[1..]));
      assert parts == [parts[0]] + parts[1..];
    }
  }

  /** Board creation reads back exactly the image the picker encoded. */
  lemma ParseEncode(img: Image)
    requires WellFormed(img)
    ensures Parse(Encode(img)) == Ok(img)
  {
    var f := Fields(img);
    assert forall i :: 0 <= i < |f| ==> Sep !in f[i];
    EncodeIsJoin(img);
    SplitJoin(f);
  }

  /** Pieces after the fifth play no part in parsing. */
  lemma ParseIgnoresExtra(value: string, extra: string)
    requires |Split(value)| >= 5
    ensures Parse(value + [Sep] + extra) == Parse(value)
  {
    SplitAppend(value, extra);
    var p := Split(value);
    var q := Split(value + [Sep] + extra);
    assert forall i :: 0 <= i < 5 ==> Field(q, i) == Field(p, i);
  }

  /**
    A `|` inside a field shifts every later field: an image whose id is
    `a|b` comes back with id `a`, thumbnail `b`, and so on, its user name
    lost. The round trip therefore needs separator-free fields.
   */
  lemma SeparatorInFieldBreaksRoundTrip(img: Image, a: string, b: string)
    requires img.id == a + [Sep] + b
    requires a != "" && b != "" && img.thumbUrl != "" && img.fullUrl != "" && img.linkHtml != ""
    requires Sep !in a && Sep !in b && Sep !in img.thumbUrl && Sep !in img.fullUrl
    requires Sep !in img.linkHtml && Sep !in img.userName
    ensures Parse(Encode(img)) == Ok(Image(a, b, img.thumbUrl, img.fullUrl, img.linkHtml))
    ensures Parse(Encode(img)) != Ok(img)
  {
    var tail := Image(b, img.thumbUrl, img.fullUrl, img.linkHtml, img.userName);
    var parts := [a] + Fields(tail);
    EncodeIsJoin(tail);
    assert parts[1..] == Fields(tail);
    assert Encode(img) == a + [Sep] + Encode(tail);
    assert Join(parts) == a + [Sep] + Join(Fields(tail));
    assert forall i :: 0 <= i < |parts| ==> Sep !in parts[i];
    SplitJoin(parts);
    assert |a + [Sep] + b| > |a|;
  }
}
