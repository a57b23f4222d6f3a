/**
  The multipart payload the submit handler builds: one text part per form
  value that is not `undefined`/`null`, then a file part `image-i` and a
  text part `image-comment-i` for each attachment `i`.
 */
module Payload {
  import opened Outcomes
  import opened SurveyConfig
  import opened FormSchema
  import opened Attachments

  datatype PartValue = TextPart(s: string) | FilePart(file: ImageFile)

  /** One `FormData.append(key, value)`. */
  datatype Part = Part(key: string, value: PartValue)

  /** `items.join(",")`, which is what `String` makes of an array of strings. */
  function Join(items: seq<string>): (r: string)
    ensures |items| == 0 ==> r == ""
    ensures |items| == 1 ==> r == items[0]
    ensures |items| > 0 ==> |items[0]| <= |r| && r[..|items[0]|] == items[0]
    ensures |items| > 0 ==> var last := items[|items| - 1];
      |last| <= |r| && r[|r| - |last|..] == last
    decreases |items|
  {
    if |items| == 0 then ""
    else if |items| == 1 then items[0]
    else Join(items[..|items| - 1]) + "," + items[|items| - 1]
  }

  /**
    `s.split(",")`: the pieces between the commas, built from the back; a
    string without commas is a single piece.
   */
  function Split(s: string): (r: seq<string>)
    ensures |r| >= 1
    decreases |s|
  {
    if |s| == 0 then [""]
    else
      var front := Split(s[..|s| - 1]);
      if s[|s| - 1] == ',' then front + [""]
      else front[..|front| - 1] + [front[|front| - 1] + [s[|s| - 1]]]
  }

  /** A string without commas splits into itself. */
  lemma {:induction false} SplitWithoutComma(w: string)
    requires ',' !in w
    ensures Split(w) == [w]
    decreases |w|
  {
    if |w| > 0 {
      assert ',' !in w[..|w| - 1];
      SplitWithoutComma(w[..|w| - 1]);
      assert w[..|w| - 1] + [w[|w| - 1]] == w;
    }
  }

  /** A comma followed by a comma-free piece adds exactly that piece. */
  lemma {:induction false} SplitAfterComma(a: string, b: string)
    requires ',' !in b
    ensures Split(a + "," + b) == Split(a) + [b]
    decreases |b|
  {
    if |b| == 0 {
      assert (a + "," + b)[..|a + "," + b| - 1] == a;
    } else {
      var b' := b[..|b| - 1];
      assert ',' !in b';
      assert (a + "," + b)[..|a + "," + b| - 1] == a + "," + b';
      SplitAfterComma(a, b');
      assert b' + [b[|b| - 1]] == b;
    }
  }

  /**
    Joining a non-empty list of comma-free strings and splitting the result
    on "," gives the list back. (An empty list and the list `[""]` both join
    to the empty string.)
   */
  lemma {:induction false} JoinSplitRoundTrip(items: seq<string>)
    requires |items| >= 1
    requires forall i :: 0 <= i < |items| ==> ',' !in items[i]
    ensures Split(Join(items)) == items
    decreases |items|
  {
    if |items| == 1 {
      SplitWithoutComma(items[0]);
    } else {
      var init := items[..|items| - 1];
      JoinSplitRoundTrip(init);
      SplitAfterComma(Join(init), items[|items| - 1]);
      assert init + [items[|items| - 1]] == items;
    }
  }

  /**
    `String(value)` for a value that is present: a string is itself, a list
    is its items joined by ",", which splitting gives back when the items
    are comma-free.
   */
  function Stringify(v: FieldValue): (r: string)
    requires !v.Absent?
    ensures v.Text? ==> r == v.s
    ensures v.TextList? && |v.items| == 0 ==> r == ""
    ensures v.TextList? && |v.items| >= 1 && (forall i :: 0 <= i < |v.items| ==> ',' !in v.items[i])
      ==> Split(r) == v.items
  {
    match v
    case Text(s) => s
    case TextList(items) =>
      if |items| >= 1 && forall i :: 0 <= i < |items| ==> ',' !in items[i] then
        JoinSplitRoundTrip(items);
        Join(items)
      else Join(items)
  }

  /** The part a present form value contributes. */
  function EntryPart(f: Form, field: Field): Part
    requires !Get(f, field).Absent?
  {
    Part(Key(field), TextPart(Stringify(Get(f, field))))
  }

  /** The text parts for the given fields, skipping absent values, in field order. */
  function FormParts(f: Form, fields: seq<Field>): (r: seq<Part>)
    ensures |r| <= |fields|
    ensures forall k :: 0 <= k < |r| ==> r[k].value.TextPart?
    decreases |fields|
  {
    if |fields| == 0 then []
    else
      var field := fields[|fields| - 1];
      var front := FormParts(f, fields[..|fields| - 1]);
      if Get(f, field).Absent? then front else front + [EntryPart(f, field)]
  }

  /** Every present value among `fields` contributes its part, and every part comes from one. */
  lemma {:induction false} FormPartsMembership(f: Form, fields: seq<Field>)
    ensures forall k :: 0 <= k < |fields| && !Get(f, fields[k]).Absent? ==> EntryPart(f, fields[k]) in FormParts(f, fields)
    ensures forall p :: p in FormParts(f, fields) ==>
      exists k :: 0 <= k < |fields| && !Get(f, fields[k]).Absent? && p == EntryPart(f, fields[k])
    decreases |fields|
  {
    if |fields| > 0 {
      var init := fields[..|fields| - 1];
      FormPartsMembership(f, init);
      assert forall k :: 0 <= k < |init| ==> init[k] == fields[k];
    }
  }

  function DigitChar(d: nat): (c: char)
    requires d < 10
    ensures '0' <= c <= '9'
  {
    ('0' as int + d) as char
  }

  /** A non-empty string of decimal digits. */
  predicate IsNumeral(s: string) {
    |s| > 0 && forall k :: 0 <= k < |s| ==> '0' <= s[k] <= '9'
  }

  /** The number a string of decimal digits denotes. */
  function DigitsValue(s: string): nat
    requires forall k :: 0 <= k < |s| ==> '0' <= s[k] <= '9'
    decreases |s|
  {
    if |s| == 0 then 0
    else DigitsValue(s[..|s| - 1]) * 10 + (s[|s| - 1] as int - '0' as int)
  }

  /** The decimal numeral of `n`, as a template literal renders an index. */
  function Decimal(n: nat): (r: string)
    ensures 1 <= |r|
    ensures forall k :: 0 <= k < |r| ==> '0' <= r[k] <= '9'
    ensures DigitsValue(r) == n
    ensures |r| > 1 ==> r[0] != '0'
    ensures n >= 10 ==> |r| >= 2
    ensures r[|r| - 1] == DigitChar(n % 10)
    decreases n
  {
    if n < 10 then [DigitChar(n)]
    else
      var front := Decimal(n / 10);
      var r := front + [DigitChar(n % 10)];
      assert r[..|r| - 1] == front;
      r
  }

  /** Different indices get different numerals. */
  lemma {:induction false} DecimalInjective(a: nat, b: nat)
    requires Decimal(a) == Decimal(b)
    ensures a == b
    decreases a
  {
    if a >= 10 && b >= 10 {
      var da, db := Decimal(a), Decimal(b);
      assert da[..|da| - 1] == Decimal(a / 10);
      assert db[..|db| - 1] == Decimal(b / 10);
      DecimalInjective(a / 10, b / 10);
    }
  }

  /** `image-${index}`. */
  function ImageKey(i: nat): string {
    "image-" + Decimal(i)
  }

  /** `image-comment-${index}`. */
  function CommentKey(i: nat): string {
    "image-comment-" + Decimal(i)
  }

  /** Each key is its prefix followed by a numeral that denotes the index. */
  lemma KeysNameTheIndex(i: nat)
    ensures |ImageKey(i)| > 6 && ImageKey(i)[..6] == "image-"
    ensures IsNumeral(ImageKey(i)[6..]) && DigitsValue(ImageKey(i)[6..]) == i
    ensures |CommentKey(i)| > 14 && CommentKey(i)[..14] == "image-comment-"
    ensures IsNumeral(CommentKey(i)[14..]) && DigitsValue(CommentKey(i)[14..]) == i
  {
    assert ImageKey(i)[6..] == Decimal(i);
    assert CommentKey(i)[14..] == Decimal(i);
  }

  /**
    The two parts per attachment, numbered by position: part `2i` is the
    file of attachment `i`, part `2i + 1` its comment.
   */
  function ImageParts(images: seq<Attachment>): (r: seq<Part>)
    ensures |r| == 2 * |images|
    ensures forall i :: 0 <= i < |images| ==>
      && r[2 * i] == Part(ImageKey(i), FilePart(images[i].file))
      && r[2 * i + 1] == Part(CommentKey(i), TextPart(images[i].comment))
    decreases |images|
  {
    if |images| == 0 then []
    else
      var n := |images| - 1;
      var front := ImageParts(images[..n]);
      front + [Part(ImageKey(n), FilePart(images[n].file)), Part(CommentKey(n), TextPart(images[n].comment))]
  }

  /** The whole payload: form values in schema order, then the attachments. */
  function BuildPayload(f: Form, images: seq<Attachment>): (r: seq<Part>)
    ensures 2 * |images| <= |r| <= |SchemaOrder| + 2 * |images|
    ensures r[|r| - 2 * |images|..] == ImageParts(images)
    ensures forall k :: 0 <= k < |r| - 2 * |images| ==> r[k].value.TextPart?
  {
    var front := FormParts(f, SchemaOrder);
    assert (front + ImageParts(images))[..|front|] == front;
    front + ImageParts(images)
  }

  /** The submit handler's two `forEach` loops. */
  method AssemblePayload(f: Form, images: seq<Attachment>) returns (parts: seq<Part>)
    ensures parts == BuildPayload(f, images)
  {
    parts := [];
    var i := 0;
    while i < |SchemaOrder|
      invariant 0 <= i <= |SchemaOrder|
      invariant parts == FormParts(f, SchemaOrder[..i])
    {
      var field := SchemaOrder[i];
      var v := Get(f, field);
      assert SchemaOrder[..i + 1][..i] == SchemaOrder[..i];
      if !v.Absent? {
        parts := parts + [Part(Key(field), TextPart(Stringify(v)))];
      }
      i := i + 1;
    }
    assert SchemaOrder[..i] == SchemaOrder;
    var j := 0;
    while j < |images|
      invariant 0 <= j <= |images|
      invariant parts == FormParts(f, SchemaOrder) + ImageParts(images[..j])
    {
      assert images[..j + 1][..j] == images[..j];
      parts := parts + [Part(ImageKey(j), FilePart(images[j].file)),
                        Part(CommentKey(j), TextPart(images[j].comment))];
      j := j + 1;
    }
    assert images[..j] == images;
  }

  /**
    No two attachment parts share a key: file keys and comment keys differ
    from each other and between indices.
   */
  lemma AttachmentKeysDistinct(i: nat, j: nat)
    ensures ImageKey(i) != CommentKey(j)
    ensures ImageKey(i) == ImageKey(j) ==> i == j
    ensures CommentKey(i) == CommentKey(j) ==> i == j
  {
    assert ImageKey(i)[6] != CommentKey(j)[6];
    if ImageKey(i) == ImageKey(j) {
      assert Decimal(i) == ImageKey(i)[6..];
      assert Decimal(j) == ImageKey(j)[6..];
      DecimalInjective(i, j);
    }
    if CommentKey(i) == CommentKey(j) {
      assert Decimal(i) == CommentKey(i)[14..];
      assert Decimal(j) == CommentKey(j)[14..];
      DecimalInjective(i, j);
    }
  }

  /** Every attachment part is the file or the comment of an attachment with an index below `n`. */
  lemma {:induction false} AttachmentPartsUseOnlyIndices(images: seq<Attachment>, p: Part)
    requires p in ImageParts(images)
    ensures exists i :: 0 <= i < |images| && (p.key == ImageKey(i) || p.key == CommentKey(i))
    decreases |images|
  {
    var n := |images| - 1;
    var front := ImageParts(images[..n]);
    assert ImageParts(images) == front + [Part(ImageKey(n), FilePart(images[n].file)),
                                          Part(CommentKey(n), TextPart(images[n].comment))];
    if p in front {
      AttachmentPartsUseOnlyIndices(images[..n], p);
    }
  }

  /** The first attachment's keys, as the payload spells them. */
  lemma FirstAttachmentKeys()
    ensures ImageKey(0) == "image-0" && CommentKey(0) == "image-comment-0"
  {
    assert Decimal(0) == "0";
  }

  /** Every attachment index has both its file part and its comment part. */
  lemma AttachmentPartsCoverIndices(images: seq<Attachment>, i: int)
    requires 0 <= i < |images|
    ensures Part(ImageKey(i), FilePart(images[i].file)) in ImageParts(images)
    ensures Part(CommentKey(i), TextPart(images[i].comment)) in ImageParts(images)
  {
    var r := ImageParts(images);
    assert r[2 * i] == Part(ImageKey(i), FilePart(images[i].file));
    assert r[2 * i + 1] == Part(CommentKey(i), TextPart(images[i].comment));
  }

  /** Every attachment's file and comment parts reach the payload. */
  lemma AttachmentPartsInPayload(f: Form, images: seq<Attachment>, i: int)
    requires 0 <= i < |images|
    ensures Part(ImageKey(i), FilePart(images[i].file)) in BuildPayload(f, images)
    ensures Part(CommentKey(i), TextPart(images[i].comment)) in BuildPayload(f, images)
  {
    AttachmentPartsCoverIndices(images, i);
    var r := BuildPayload(f, images);
    assert ImageParts(images) == r[|r| - 2 * |images|..];
  }

  /**
    The form part of the payload holds one part for every present value and
    nothing else; the remaining parts are the attachments'.
   */
  lemma PayloadCarriesExactlyPresentValues(f: Form, images: seq<Attachment>)
    ensures forall field :: !Get(f, field).Absent? ==> EntryPart(f, field) in BuildPayload(f, images)
    ensures forall p :: p in BuildPayload(f, images) ==>
      p in ImageParts(images) || exists field :: !Get(f, field).Absent? && p == EntryPart(f, field)
  {
    var parts := FormParts(f, SchemaOrder);
    FormPartsMembership(f, SchemaOrder);
    forall field | !Get(f, field).Absent?
      ensures EntryPart(f, field) in BuildPayload(f, images)
    {
      var k := SchemaIndex(field);
      assert EntryPart(f, SchemaOrder[k]) in parts;
    }
  }

  /** Why a submission did not go out: the failing required fields with their messages. */
  type ValidationErrors = map<Field, string>

  /**
    `form.handleSubmit(onSubmit)`: the schema runs first; only a form that
    passes reaches the handler, which builds the payload.
   */
  function Submit(f: Form, images: seq<Attachment>): (r: Result<seq<Part>, ValidationErrors>)
    ensures r.Err? <==> exists field :: Required(field) && !Filled(Get(f, field))
    ensures r.Err? ==> r.error == Validate(f) && r.error != map[]
    ensures r.Ok? ==> r.value == BuildPayload(f, images)
    ensures r.Ok? ==> forall field :: Required(field) ==> EntryPart(f, field) in r.value
  {
    if Passes(f) then
      PayloadCarriesExactlyPresentValues(f, images);
      Ok(BuildPayload(f, images))
    else
      assert exists field :: field in Validate(f);
      Err(Validate(f))
  }
}
