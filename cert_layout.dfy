/** The certificate page of backend/utils/generateCert.js. pdf-lib is not modelled: the page
    is the list of text-drawing commands issued on it, each at a position in PDF points. */
module CertLayout {
  import opened Wrappers

  /** `wrapText(text, max)` as a specification: consecutive slices of `max` characters, the
      last one possibly shorter. */
  function Chunks(text: string, max: nat): (lines: seq<string>)
    requires max > 0
    ensures text == "" <==> lines == []
    ensures forall k :: 0 <= k < |lines| ==> 0 < |lines[k]| <= max
    ensures forall k :: 0 <= k < |lines| - 1 ==> |lines[k]| == max
    decreases |text|
  {
    if text == "" then []
    else if |text| <= max then [text]
    else [text[..max]] + Chunks(text[max..], max)
  }

  /** The lines of a block, written one after another. */
  function Concat(lines: seq<string>): string {
    if lines == [] then "" else lines[0] + Concat(lines[1..])
  }

  /** Wrapping loses nothing: the lines put back together are the text. */
  lemma {:induction false} ChunksConcat(text: string, max: nat)
    requires max > 0
    ensures Concat(Chunks(text, max)) == text
    decreases |text|
  {
    if text != "" && |text| > max {
      ChunksConcat(text[max..], max);
      assert text == text[..max] + text[max..];
    }
  }

  /** At the width `generateCert` uses, the line count is the ceiling of length / 64. */
  lemma {:induction false} ChunksCount(text: string)
    ensures |Chunks(text, LineWidth)| == (|text| + LineWidth - 1) / LineWidth
    decreases |text|
  {
    if |text| > LineWidth {
      ChunksCount(text[LineWidth..]);
    }
  }

  /** One step of the loop in `wrapText`: the chunks from `i` are the slice at `i` followed by
      the chunks from `i + max`. */
  lemma ChunksFrom(text: string, max: nat, i: nat)
    requires max > 0 && i < |text|
    ensures var j := if i + max < |text| then i + max else |text|;
      Chunks(text[i..], max) == [text[i..j]] + Chunks(text[j..], max)
  {
    if i + max < |text| {
      assert text[i..][..max] == text[i..i + max];
      assert text[i..][max..] == text[i + max..];
    } else {
      assert text[i..|text|] == text[i..];
      assert text[|text|..] == "";
    }
  }

  /** The `for` loop of `wrapText`: push `text.slice(i, i + max)` while `i < text.length`. */
  method WrapText(text: string, max: nat) returns (lines: seq<string>)
    requires max > 0
    ensures lines == Chunks(text, max)
  {
    lines := [];
    var i := 0;
    while i < |text|
      invariant 0 <= i <= |text|
      invariant lines + Chunks(text[i..], max) == Chunks(text, max)
      decreases |text| - i
    {
      ChunksFrom(text, max, i);
      var j := if i + max < |text| then i + max else |text|;
      lines := lines + [text[i..j]];
      i := j;
    }
    assert text[i..] == "";
  }

  /** A `page.drawText` call: the text and its baseline position. Font (Courier), size (8)
      and colour (black) are the same for every call. */
  datatype DrawCommand = DrawText(text: string, x: int, y: int)

  const X := 140
  const Top := 520
  const Step := 16
  const LineWidth := 64

  /** What `draw` renders: `text || '-'`. */
  function Shown(text: JsString): (s: string)
    ensures s != ""
    ensures Truthy(text) ==> s == text.value
    ensures !Truthy(text) ==> s == "-"
  {
    OrElse(text, "-")
  }

  /** The page under construction. */
  class Page {
    var drawn: seq<DrawCommand>

    constructor ()
      ensures drawn == []
    {
      drawn := [];
    }

    /** `draw(text, x, y)`. */
    method Draw(text: JsString, x: int, y: int)
      modifies this
      ensures drawn == old(drawn) + [DrawText(Shown(text), x, y)]
    {
      drawn := drawn + [DrawText(Shown(text), x, y)];
    }
  }

  /** The draw calls of `wrapText(text).forEach((line, i) => draw(line, x, y - i * step))`. */
  function Block(lines: seq<string>, y: int): seq<DrawCommand> {
    seq(|lines|, i requires 0 <= i < |lines| => DrawText(Shown(Some(lines[i])), X, y - i * Step))
  }

  /** How far `y` drops after a block: `step * (lines.length || 1)`. */
  function Advance(lines: seq<string>): (d: nat)
    ensures d >= Step && d >= Step * |lines|
  {
    Step * (if |lines| == 0 then 1 else |lines|)
  }

  /** The arguments `generateCert` destructures; an absent property is `None`. */
  datatype CertFields = CertFields(
    userName: JsString, email: JsString, title: JsString, fileName: JsString,
    merkleRoot: JsString, certificateId: JsString, fileHash: JsString,
    timestamp: JsString, blockchain: JsString, verificationLink: JsString)

  /** `merkleRoot = ''`: the default applies to an absent property only. */
  function MerkleRoot(f: CertFields): JsString {
    if f.merkleRoot.None? then Some("") else f.merkleRoot
  }

  /** The commands `generateCert` issues, and whether it throws. `wrapText` of an absent
      certificate id, file hash or verification link reads `length` of `undefined` and throws
      a `TypeError`; the draws issued before that are kept in `draws`. */
  datatype Drawing = Drawing(draws: seq<DrawCommand>, threw: bool)

  /** The five user fields at y = 520, 504, 488, 472, 456. */
  function Head(f: CertFields): seq<DrawCommand> {
    [DrawText(Shown(f.userName), X, 520), DrawText(Shown(f.email), X, 504),
     DrawText(Shown(f.title), X, 488), DrawText(Shown(f.fileName), X, 472),
     DrawText(Shown(MerkleRoot(f)), X, 456)]
  }

  /** The timestamp and the blockchain, one line each from `y` down. */
  function Footer(f: CertFields, y: int): seq<DrawCommand> {
    [DrawText(Shown(f.timestamp), X, y), DrawText(Shown(f.blockchain), X, y - Step)]
  }

  /** What is drawn from the file hash on, with the hash block starting at `y`: the hash,
      the timestamp and the blockchain, then the verification link. */
  function Tail(f: CertFields, y: int): Drawing {
    if f.fileHash.None? then Drawing([], true)
    else
      var hashLines := Chunks(f.fileHash.value, LineWidth);
      var y2 := y - Advance(hashLines);
      var d := Block(hashLines, y) + Footer(f, y2);
      if f.verificationLink.None? then Drawing(d, true)
      else Drawing(d + Block(Chunks(f.verificationLink.value, LineWidth), y2 - 2 * Step), false)
  }

  function Layout(f: CertFields): Drawing {
    if f.certificateId.None? then Drawing(Head(f), true)
    else
      var idLines := Chunks(f.certificateId.value, LineWidth);
      var t := Tail(f, 440 - Advance(idLines));
      Drawing(Head(f) + Block(idLines, 440) + t.draws, t.threw)
  }

  /** Draws a block line by line, as the `forEach` does. */
  method DrawBlock(page: Page, lines: seq<string>, y: int)
    modifies page
    ensures page.drawn == old(page.drawn) + Block(lines, y)
  {
    var i := 0;
    while i < |lines|
      invariant 0 <= i <= |lines|
      invariant page.drawn == old(page.drawn) + Block(lines, y)[..i]
    {
      page.Draw(Some(lines[i]), X, y - i * Step);
      i := i + 1;
    }
  }

  /** `generateCert(fields)` on the template's first page. It throws exactly where `Layout`
      says, having drawn what `Layout` lists; on success the page carries the whole layout. */
  method GenerateCert(page: Page, f: CertFields) returns (ok: bool)
    modifies page
    ensures ok <==> !Layout(f).threw
    ensures page.drawn == old(page.drawn) + Layout(f).draws
  {
    var y := DrawUserInfo(page, f);
    if f.certificateId.None? {
      return false;
    }
    ghost var idLines := Chunks(f.certificateId.value, LineWidth);
    ghost var d1 := Head(f) + Block(idLines, 440);
    y := DrawWrapped(page, f.certificateId.value, y);
    assert page.drawn == old(page.drawn) + d1;
    ok := DrawTail(page, f, y);
    assert Layout(f) == Drawing(d1 + Tail(f, y).draws, Tail(f, y).threw);
  }

  /** The part of `generateCert` from the file hash on, with y at `y`. */
  method DrawTail(page: Page, f: CertFields, y: int) returns (ok: bool)
    modifies page
    ensures ok <==> !Tail(f, y).threw
    ensures page.drawn == old(page.drawn) + Tail(f, y).draws
  {
    if f.fileHash.None? {
      return false;
    }
    var y' := DrawWrapped(page, f.fileHash.value, y);
    page.Draw(f.timestamp, X, y'); y' := y' - Step;
    page.Draw(f.blockchain, X, y'); y' := y' - Step;
    if f.verificationLink.None? {
      return false;
    }
    var linkLines := WrapText(f.verificationLink.value, LineWidth);
    DrawBlock(page, linkLines, y');
    ok := true;
  }

  /** The USER INFO part of `generateCert`: five fields, one line each, from y = 520 down. */
  method DrawUserInfo(page: Page, f: CertFields) returns (y: int)
    modifies page
    ensures page.drawn == old(page.drawn) + Head(f)
    ensures y == 440
  {
    var merkleRoot := if f.merkleRoot.None? then Some("") else f.merkleRoot;
    y := Top;
    page.Draw(f.userName, X, y); y := y - Step;
    page.Draw(f.email, X, y); y := y - Step;
    page.Draw(f.title, X, y); y := y - Step;
    page.Draw(f.fileName, X, y); y := y - Step;
    page.Draw(merkleRoot, X, y); y := y - Step;
  }

  /** `wrapText(text).forEach(...)` followed by `y -= step * (wrapText(text).length || 1)`. */
  method DrawWrapped(page: Page, text: string, y: int) returns (y': int)
    modifies page
    ensures page.drawn == old(page.drawn) + Block(Chunks(text, LineWidth), y)
    ensures y' == y - Advance(Chunks(text, LineWidth))
  {
    var lines := WrapText(text, LineWidth);
    DrawBlock(page, lines, y);
    y' := y - Step * (if |lines| == 0 then 1 else |lines|);
  }

  /** Commands listed top to bottom in one column: every one at x = 140 with a non-empty
      text, and every later one strictly lower on the page. */
  ghost predicate Column(d: seq<DrawCommand>) {
    && (forall k :: 0 <= k < |d| ==> d[k].x == X && d[k].text != "")
    && (forall i, j :: 0 <= i < j < |d| ==> d[j].y < d[i].y)
  }

  lemma ColumnConcat(a: seq<DrawCommand>, b: seq<DrawCommand>)
    requires Column(a) && Column(b)
    requires a != [] && b != [] ==> b[0].y < a[|a| - 1].y
    ensures Column(a + b)
  {
    if a != [] && b != [] {
      forall i, j | 0 <= i < j < |a + b| ensures (a + b)[j].y < (a + b)[i].y {
        if i < |a| && j >= |a| {
          assert (a + b)[j].y <= b[0].y;
        }
      }
    }
  }

  /** A block starts at `y` and its last line sits above `y - Advance(lines)`. */
  lemma BlockShape(lines: seq<string>, y: int)
    ensures Column(Block(lines, y))
    ensures lines != [] ==> Block(lines, y)[0].y == y
    ensures lines != [] ==> Block(lines, y)[|lines| - 1].y > y - Advance(lines)
  {
  }

  /** The five user fields come first, in order, at x = 140 and y = 520, 504, 488, 472, 456,
      with '-' standing in for an empty or absent value. */
  lemma LayoutHead(f: CertFields)
    ensures |Layout(f).draws| >= 5
    ensures var d := Layout(f).draws;
      && d[0] == DrawText(OrElse(f.userName, "-"), 140, 520)
      && d[1] == DrawText(OrElse(f.email, "-"), 140, 504)
      && d[2] == DrawText(OrElse(f.title, "-"), 140, 488)
      && d[3] == DrawText(OrElse(f.fileName, "-"), 140, 472)
      && d[4] == DrawText(OrElse(f.merkleRoot, "-"), 140, 456)
  {
  }

  /** `generateCert` throws exactly when the certificate id, the file hash or the
      verification link is absent. */
  lemma LayoutThrows(f: CertFields)
    ensures Layout(f).threw <==>
      f.certificateId.None? || f.fileHash.None? || f.verificationLink.None?
  {
  }

  /** Stacking a block under a column whose last line sits above `y` keeps a column, whose
      last line sits above `y - Advance(lines)`. */
  lemma StackBlock(d: seq<DrawCommand>, lines: seq<string>, y: int)
    requires Column(d) && d != [] && d[|d| - 1].y > y
    ensures Column(d + Block(lines, y))
    ensures (d + Block(lines, y))[|d + Block(lines, y)| - 1].y > y - Advance(lines)
  {
    BlockShape(lines, y);
    ColumnConcat(d, Block(lines, y));
  }

  lemma StackTail(d: seq<DrawCommand>, f: CertFields, y: int)
    requires Column(d) && d != [] && d[|d| - 1].y > y
    ensures Column(d + Tail(f, y).draws)
  {
    TailColumn(f, y);
    ColumnConcat(d, Tail(f, y).draws);
  }

  /** The part from the file hash on is a column starting at `y` or below. */
  lemma TailColumn(f: CertFields, y: int)
    ensures Column(Tail(f, y).draws)
    ensures Tail(f, y).draws != [] ==> Tail(f, y).draws[0].y <= y
  {
    if f.fileHash.Some? {
      var y2 := y - Advance(Chunks(f.fileHash.value, LineWidth));
      var d := HashColumn(f, y);
      if f.verificationLink.Some? {
        var linkLines := Chunks(f.verificationLink.value, LineWidth);
        BlockShape(linkLines, y2 - 2 * Step);
        ColumnConcat(d, Block(linkLines, y2 - 2 * Step));
        assert Tail(f, y).draws == d + Block(linkLines, y2 - 2 * Step);
      } else {
        assert Tail(f, y).draws == d;
      }
    }
  }

  /** The file hash block and the footer under it form a column from `y` down, ending with the
      blockchain line. */
  lemma HashColumn(f: CertFields, y: int) returns (d: seq<DrawCommand>)
    requires f.fileHash.Some?
    ensures var hashLines := Chunks(f.fileHash.value, LineWidth);
      d == Block(hashLines, y) + Footer(f, y - Advance(hashLines))
    ensures Column(d) && d[0].y <= y
    ensures d[|d| - 1].y == y - Advance(Chunks(f.fileHash.value, LineWidth)) - Step
  {
    var hashLines := Chunks(f.fileHash.value, LineWidth);
    var b := Block(hashLines, y);
    BlockShape(hashLines, y);
    ColumnConcat(b, Footer(f, y - Advance(hashLines)));
    d := b + Footer(f, y - Advance(hashLines));
  }

  /** Every command is at x = 140 with a non-empty text, and the commands run strictly down
      the page, so no two lines overlap. */
  lemma LayoutDescends(f: CertFields)
    ensures Column(Layout(f).draws)
  {
    var head := Head(f);
    assert Column(head) && head[|head| - 1].y > 440;
    if f.certificateId.Some? {
      var idLines := Chunks(f.certificateId.value, LineWidth);
      StackBlock(head, idLines, 440);
      var d1 := head + Block(idLines, 440);
      StackTail(d1, f, 440 - Advance(idLines));
      assert Layout(f).draws == d1 + Tail(f, 440 - Advance(idLines)).draws;
    }
  }
}
