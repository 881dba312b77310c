/**
 * `ReportVisitor` of src/diff.js: collects the (model, browser) matrix of
 * screenshot groups and renders it as an HTML page, one line per `put`.
 * The page text is what the visitor writes to its output file; writing it
 * is recorded, not performed, and so is each `console.error` line.
 */
module Report {
  import opened Wrappers
  import opened Dict
  import opened Strings
  import opened ArtifactKey
  import opened Seqs

  /** One cell of the matrix: content hash to the screenshots with that content, in the order they were found. */
  type Groups = Dict<string, seq<string>>

  /** Line `i` of the fixed document head. */
  function HeadLine(i: nat): string {
    match i
    case 0 => "<!DOCTYPE html>"
    case 1 => "<html>"
    case 2 => "<head>"
    case 3 => "    <title>diff</title>"
    case 4 => "    <meta charset=\"utf-8\">"
    case 5 => "    <meta name=\"description\" content=\"PC\">"
    case 6 => "    <style>"
    case 7 => "        table, td {"
    case 8 => "            border: 1px solid #333;"
    case 9 => "        }"
    case 10 => "        thead, tfoor {"
    case 11 => "            background-color: #333;"
    case 12 => "            color: #fff;"
    case 13 => "        }"
    case 14 => "        img {"
    case 15 => "            width: 160px;"
    case 16 => "            height: 120px;"
    case 17 => "        }"
    case 18 => "    </style>"
    case 19 => "</head>"
    case _ => "<body>"
  }

  /** The fixed document head, one entry per `put`. */
  function Head(): (h: seq<string>)
    ensures |h| == 21
  {
    seq(21, i requires 0 <= i < 21 => HeadLine(i))
  }

  function OpenLine(tag: string): string {
    "<" + tag + ">"
  }

  function CloseLine(tag: string): string {
    "</" + tag + ">"
  }

  /** The three lines of `tag(tag, value)`. */
  function TagLines(tag: string, value: string): seq<string> {
    [OpenLine(tag), value, CloseLine(tag)]
  }

  /** Every path names a screenshot key, so its label can be read. */
  predicate Keyed(images: seq<string>) {
    forall i :: 0 <= i < |images| ==> ExtractKey(images[i]).Some?
  }

  /** The `engine/variant` label of one screenshot. */
  function Label(pathname: string): (l: string)
    requires ExtractKey(pathname).Some?
    ensures '/' in l
  {
    var k := ExtractKey(pathname).value;
    assert (k.engine + "/" + k.variant)[|k.engine|] == '/';
    k.engine + "/" + k.variant
  }

  function Labels(images: seq<string>): (ls: seq<string>)
    requires Keyed(images)
    ensures |ls| == |images|
  {
    seq(|images|, i requires 0 <= i < |images| => Label(images[i]))
  }

  /**
   * The `reduce` that builds a link's title: each label is appended to the
   * accumulator, after a newline when the accumulator is not empty.
   */
  function Tags(acc: string, images: seq<string>): string
    requires Keyed(images)
    decreases |images|
  {
    if images == [] then acc
    else Tags(acc + (if acc != "" then "\n" else "") + Label(images[0]), images[1..])
  }

  lemma JoinMergeFirst(a: string, b: string, rest: seq<string>)
    ensures Join([a + "\n" + b] + rest, "\n") == a + "\n" + Join([b] + rest, "\n")
  {
    if rest != [] {
      assert ([a + "\n" + b] + rest)[1..] == rest;
      assert ([b] + rest)[1..] == rest;
    }
  }

  lemma LabelsCons(images: seq<string>)
    requires Keyed(images) && images != []
    ensures Labels(images) == [Label(images[0])] + Labels(images[1..])
  {
    var r := [Label(images[0])] + Labels(images[1..]);
    forall i | 0 <= i < |r| ensures r[i] == Labels(images)[i] {
      if i > 0 {
        assert r[i] == Labels(images[1..])[i - 1];
      }
    }
  }

  lemma JoinCons(a: string, parts: seq<string>, sep: string)
    requires parts != []
    ensures Join([a] + parts, sep) == a + sep + Join(parts, sep)
  {
    assert ([a] + parts)[1..] == parts;
  }

  lemma {:induction false} TagsFrom(acc: string, images: seq<string>)
    requires Keyed(images) && acc != ""
    ensures Tags(acc, images) == Join([acc] + Labels(images), "\n")
    decreases |images|
  {
    if images != [] {
      var l := Label(images[0]);
      var rest := Labels(images[1..]);
      TagsFrom(acc + "\n" + l, images[1..]);
      assert Tags(acc, images) == Tags(acc + "\n" + l, images[1..]);
      LabelsCons(images);
      JoinMergeFirst(acc, l, rest);
      JoinCons(acc, [l] + rest, "\n");
    }
  }

  /**
   * Because every label contains a `/` and so is never empty, the title is
   * exactly the labels joined by newlines, one per screenshot of the group.
   */
  lemma TagsJoin(images: seq<string>)
    requires Keyed(images)
    ensures Tags("", images) == Join(Labels(images), "\n")
  {
    if images != [] {
      var l := Label(images[0]);
      assert "" + "" + l == l;
      TagsFrom(l, images[1..]);
      assert Labels(images) == [l] + Labels(images[1..]);
    }
  }

  /** A group can be rendered: it has a first screenshot, and every screenshot has a key. */
  predicate Renderable(g: Groups) {
    forall k :: 0 <= k < |g| ==> g[k].1 != [] && Keyed(g[k].1)
  }

  /** The link to one group: a thumbnail of its first screenshot, titled with every label of the group. */
  function LinkLines(dir: string, relative: (string, string) -> string, images: seq<string>): seq<string>
    requires images != [] && Keyed(images)
  {
    var p := relative(dir, images[0]);
    [OpenLine(AnchorTag(p, Tags("", images))), OpenLine(ImgTag(p)), CloseLine("a")]
  }

  /** The opening tag of a link to `p` that opens in a new tab, titled `title`. */
  function AnchorTag(p: string, title: string): string {
    "a href=\"" + p + "\" target=\"_blank\" title=\"" + title + "\""
  }

  function ImgTag(p: string): string {
    "img src=\"" + p + "\""
  }

  lemma CellLinesSnoc(dir: string, relative: (string, string) -> string, g: Groups, k: nat)
    requires Renderable(g) && k < |g|
    ensures Renderable(g[..k]) && Renderable(g[..k + 1])
    ensures CellLines(dir, relative, g[..k + 1]) == CellLines(dir, relative, g[..k]) + LinkLines(dir, relative, g[k].1)
  {
    assert g[..k + 1][..k] == g[..k];
  }

  /** The lines inside one `<td>`: one link per hash group, in the order of the groups. */
  function CellLines(dir: string, relative: (string, string) -> string, g: Groups): seq<string>
    requires Renderable(g)
  {
    if g == [] then []
    else CellLines(dir, relative, g[..|g| - 1]) + LinkLines(dir, relative, g[|g| - 1].1)
  }

  /** Each group of a cell renders as three lines, the second the thumbnail of its first screenshot. */
  lemma {:induction false} CellLinesAt(dir: string, relative: (string, string) -> string, g: Groups, k: nat)
    requires Renderable(g) && k < |g|
    ensures |CellLines(dir, relative, g)| == 3 * |g|
    ensures CellLines(dir, relative, g)[3 * k + 1] == OpenLine(ImgTag(relative(dir, g[k].1[0])))
  {
    var front := g[..|g| - 1];
    if k < |g| - 1 {
      CellLinesAt(dir, relative, front, k);
    } else if front != [] {
      CellLinesAt(dir, relative, front, 0);
    }
  }

  /** The header row after its `model` heading: one `th` per browser. */
  function HeaderLines(browsers: seq<string>): seq<string> {
    if browsers == [] then []
    else HeaderLines(browsers[..|browsers| - 1]) + TagLines("th", browsers[|browsers| - 1])
  }

  /** One `td` of the matrix. */
  function TdLines(dir: string, relative: (string, string) -> string, g: Groups): seq<string>
    requires Renderable(g)
  {
    [OpenLine("td")] + CellLines(dir, relative, g) + [CloseLine("td")]
  }

  /** The cells of one row, one `td` per browser. */
  function CellsLines(dir: string, relative: (string, string) -> string, row: seq<Groups>): seq<string>
    requires forall b :: 0 <= b < |row| ==> Renderable(row[b])
  {
    if row == [] then []
    else CellsLines(dir, relative, row[..|row| - 1]) + TdLines(dir, relative, row[|row| - 1])
  }

  function RowLines(dir: string, relative: (string, string) -> string, model: string, row: seq<Groups>): seq<string>
    requires forall b :: 0 <= b < |row| ==> Renderable(row[b])
  {
    [OpenLine("tr")] + TagLines("td", model) + CellsLines(dir, relative, row) + [CloseLine("tr")]
  }

  /** Whether every row of a matrix can be rendered. */
  predicate RowsRenderable(rows: seq<seq<Groups>>) {
    forall m, b :: 0 <= m < |rows| && 0 <= b < |rows[m]| ==> Renderable(rows[m][b])
  }

  /** The table body, one row per model. */
  function BodyLines(dir: string, relative: (string, string) -> string, models: seq<string>, rows: seq<seq<Groups>>): seq<string>
    requires |rows| == |models| && RowsRenderable(rows)
  {
    if rows == [] then []
    else
      var n := |rows| - 1;
      BodyLines(dir, relative, models[..n], rows[..n]) + RowLines(dir, relative, models[n], rows[n])
  }

  lemma CellsLinesSnoc(dir: string, relative: (string, string) -> string, row: seq<Groups>, b: nat)
    requires (forall c :: 0 <= c < |row| ==> Renderable(row[c])) && b < |row|
    ensures CellsLines(dir, relative, row[..b + 1]) == CellsLines(dir, relative, row[..b]) + TdLines(dir, relative, row[b])
  {
    assert row[..b + 1][..b] == row[..b];
  }

  lemma BodyLinesSnoc(dir: string, relative: (string, string) -> string, models: seq<string>, rows: seq<seq<Groups>>, m: nat)
    requires |rows| == |models| && RowsRenderable(rows) && m < |rows|
    ensures RowsRenderable(rows[..m]) && RowsRenderable(rows[..m + 1])
    ensures BodyLines(dir, relative, models[..m + 1], rows[..m + 1])
         == BodyLines(dir, relative, models[..m], rows[..m]) + RowLines(dir, relative, models[m], rows[m])
  {
    assert models[..m + 1][..m] == models[..m] && rows[..m + 1][..m] == rows[..m];
  }

  /** The document head and the tags that open the table and its header row. */
  function Preamble(): seq<string> {
    Head() + [OpenLine("table"), OpenLine("thead"), OpenLine("tr")]
  }

  /** The header row: `model`, then one heading per browser; the header is closed and the body opened. */
  function HeaderRow(browsers: seq<string>): seq<string> {
    TagLines("th", "model") + HeaderLines(browsers) + [CloseLine("thead"), OpenLine("tbody")]
  }

  /** The tags that close the table and the document. */
  function Closing(): seq<string> {
    [CloseLine("tbody"), CloseLine("table"), CloseLine("body"), CloseLine("html")]
  }

  /** The whole page: head, the header row of browsers, one row per model, and the closing tags. */
  function Page(dir: string, relative: (string, string) -> string, models: seq<string>, browsers: seq<string>,
                rows: seq<seq<Groups>>): seq<string>
    requires |rows| == |models| && RowsRenderable(rows)
  {
    Preamble() + HeaderRow(browsers) + BodyLines(dir, relative, models, rows) + Closing()
  }

  /** Every cell of the `models` x `browsers` matrix holds groups that can be rendered. */
  predicate Filled(models: seq<string>, browsers: seq<string>, table: seq<map<nat, Option<Groups>>>) {
    (|browsers| > 0 ==> |models| <= |table|)
    && forall m, b :: 0 <= m < |models| && 0 <= b < |browsers| ==>
         b in table[m] && table[m][b].Some? && Renderable(table[m][b].value)
  }

  /** The groups of a filled matrix, row by row. */
  function TableRows(models: seq<string>, browsers: seq<string>, table: seq<map<nat, Option<Groups>>>): (rows: seq<seq<Groups>>)
    requires Filled(models, browsers, table)
    ensures |rows| == |models| && RowsRenderable(rows)
    ensures forall m :: 0 <= m < |models| ==> |rows[m]| == |browsers|
    ensures forall m, b :: 0 <= m < |models| && 0 <= b < |browsers| ==> |rows[m]| == |browsers| && rows[m][b] == table[m][b].value
  {
    seq(|models|, m requires 0 <= m < |models| =>
      seq(|browsers|, b requires 0 <= b < |browsers| => table[m][b].value))
  }

  /** A JavaScript array of strings that only grows, by `push`. */
  class Lines {
    var items: seq<string>

    constructor()
      ensures items == []
    {
      items := [];
    }

    method Push(text: string)
      modifies this
      ensures items == old(items) + [text]
    {
      items := items + [text];
    }
  }

  class ReportVisitor {
    const outputPathname: string
    const outputDir: string
    /** `path.relative`, supplied by the platform. */
    const relative: (string, string) -> string
    /** The page, one entry per `put`. */
    const html: Lines

    var models: Option<seq<string>>
    var browsers: Option<seq<string>>
    /** Row `m` maps a browser index to what `entry` was given; `None` is `undefined`. */
    var table: seq<map<nat, Option<Groups>>>
    /** The lines sent to `console.error`. */
    var errors: seq<string>
    /** The text written to `outputPathname`, once `done` has run. */
    var written: Option<string>

    constructor(outputPathname: string, dirname: string -> string, relative: (string, string) -> string)
      ensures this.outputPathname == outputPathname && outputDir == dirname(outputPathname)
      ensures this.relative == relative
      ensures fresh(html) && html.items == []
      ensures models == None && browsers == None && table == [] && errors == [] && written == None
    {
      this.outputPathname := outputPathname;
      this.outputDir := dirname(outputPathname);
      this.relative := relative;
      html := new Lines();
      models := None;
      browsers := None;
      table := [];
      errors := [];
      written := None;
    }

    /** `init`: remembers the axes and starts an empty row per model. */
    method Init(ms: seq<string>, bs: seq<string>)
      modifies this
      ensures models == Some(ms) && browsers == Some(bs)
      ensures |table| == if |ms| < |old(table)| then |old(table)| else |ms|
      ensures forall i :: 0 <= i < |table| ==> table[i] == if i < |ms| then map[] else old(table)[i]
      ensures errors == old(errors) && written == old(written)
    {
      models := Some(ms);
      browsers := Some(bs);
      for i := 0 to |ms|
        invariant |table| == if i < |old(table)| then |old(table)| else i
        invariant forall k :: 0 <= k < |table| ==> table[k] == if k < i then map[] else old(table)[k]
        invariant models == Some(ms) && browsers == Some(bs)
        invariant errors == old(errors) && written == old(written)
      {
        if i < |table| {
          table := table[i := map[]];
        } else {
          table := table + [map[]];
        }
      }
    }

    /** `entry`: records the groups of one (model, browser) cell; `table[m]` must exist. */
    method Entry(m: nat, b: nat, hashes: Option<Groups>)
      requires m < |table|
      modifies this
      ensures |table| == |old(table)|
      ensures table[m] == old(table)[m][b := hashes]
      ensures forall i :: 0 <= i < |table| && i != m ==> table[i] == old(table)[i]
      ensures models == old(models) && browsers == old(browsers)
      ensures errors == old(errors) && written == old(written)
    {
      var row: map<nat, Option<Groups>> := table[m][b := hashes];
      table := table[m := row];
    }

    /** `put`. */
    method Put(text: string)
      modifies html
      ensures html.items == old(html.items) + [text]
    {
      html.Push(text);
    }

    /** `open`. */
    method Open(tag: string)
      modifies html
      ensures html.items == old(html.items) + [OpenLine(tag)]
    {
      Put("<" + tag + ">");
    }

    /** `close`. */
    method Close(tag: string)
      modifies html
      ensures html.items == old(html.items) + [CloseLine(tag)]
    {
      Put("</" + tag + ">");
    }

    /** `tag`: a value wrapped in an opening and a closing tag, on three lines. */
    method Tag(tag: string, value: string)
      modifies html
      ensures html.items == old(html.items) + TagLines(tag, value)
    {
      Open(tag);
      Put(value);
      Close(tag);
    }

    /** `error`: one line on the error stream. */
    method Error(msg: string)
      modifies this
      ensures errors == old(errors) + [msg]
      ensures models == old(models) && browsers == old(browsers) && table == old(table) && written == old(written)
    {
      errors := errors + [msg];
    }

    /**
     * What `done` needs to finish: both axes set, and every cell of the
     * matrix filled with groups that can be rendered.  Otherwise it throws
     * a `TypeError` (reading a property of `null` or `undefined`).
     */
    predicate Complete()
      reads this
    {
      models.Some? && browsers.Some? && Filled(models.value, browsers.value, table)
    }

    /** The filled matrix, row by row. */
    function Rows(): (rows: seq<seq<Groups>>)
      requires Complete()
      reads this
      ensures |rows| == |models.value| && RowsRenderable(rows)
    {
      TableRows(models.value, browsers.value, table)
    }

    /** The `put`s of consecutive lines. */
    method PutLines(lines: seq<string>)
      modifies html
      ensures html.items == old(html.items) + lines
    {
      for k := 0 to |lines|
        invariant html.items == old(html.items) + lines[..k]
      {
        assert lines[..k + 1] == lines[..k] + [lines[k]];
        AppendAssoc(old(html.items), lines[..k], [lines[k]]);
        Put(lines[k]);
      }
      assert lines[..|lines|] == lines;
    }

    method PutPreamble()
      modifies html
      ensures html.items == old(html.items) + Preamble()
    {
      PutLines(Head());
      Open("table");
      Open("thead");
      Open("tr");
    }

    method PutHeaderRow(bs: seq<string>)
      modifies html
      ensures html.items == old(html.items) + HeaderRow(bs)
    {
      Tag("th", "model");
      PutHeader(bs);
      Close("thead");
      Open("tbody");
    }

    method PutClosing()
      modifies html
      ensures html.items == old(html.items) + Closing()
    {
      Close("tbody");
      Close("table");
      Close("body");
      Close("html");
    }

    /** The header cells: one `th` per browser. */
    method PutHeader(bs: seq<string>)
      modifies html
      ensures html.items == old(html.items) + HeaderLines(bs)
    {
      for b := 0 to |bs|
        invariant html.items == old(html.items) + HeaderLines(bs[..b])
      {
        assert bs[..b + 1][..b] == bs[..b];
        AppendAssoc(old(html.items), HeaderLines(bs[..b]), TagLines("th", bs[b]));
        Tag("th", bs[b]);
      }
      assert bs[..|bs|] == bs;
    }

    /** One cell: a link per hash group, each a thumbnail of the group's first screenshot. */
    method PutCell(g: Groups)
      requires Renderable(g)
      modifies html
      ensures html.items == old(html.items) + CellLines(outputDir, relative, g)
    {
      for k := 0 to |g|
        invariant html.items == old(html.items) + CellLines(outputDir, relative, g[..k])
      {
        CellLinesSnoc(outputDir, relative, g, k);
        AppendAssoc(old(html.items), CellLines(outputDir, relative, g[..k]), LinkLines(outputDir, relative, g[k].1));
        PutLink(g[k].1);
      }
      assert g[..|g|] == g;
    }

    /** The link to one group, around a thumbnail of its first screenshot. */
    method PutLink(images: seq<string>)
      requires images != [] && Keyed(images)
      modifies html
      ensures html.items == old(html.items) + LinkLines(outputDir, relative, images)
    {
      var tags := Tags("", images);
      var p := relative(outputDir, images[0]);
      Open(AnchorTag(p, tags));
      Open(ImgTag(p));
      Close("a");
    }

    method PutTd(g: Groups)
      requires Renderable(g)
      modifies html
      ensures html.items == old(html.items) + TdLines(outputDir, relative, g)
    {
      Open("td");
      PutCell(g);
      Close("td");
      AppendThree(old(html.items), [OpenLine("td")], CellLines(outputDir, relative, g), [CloseLine("td")]);
    }

    /** One table row: the model name, then one `td` per browser. */
    method PutRow(model: string, row: seq<Groups>)
      requires forall b :: 0 <= b < |row| ==> Renderable(row[b])
      modifies html
      ensures html.items == old(html.items) + RowLines(outputDir, relative, model, row)
    {
      Open("tr");
      Tag("td", model);
      ghost var cells := html.items;
      for b := 0 to |row|
        invariant html.items == cells + CellsLines(outputDir, relative, row[..b])
      {
        CellsLinesSnoc(outputDir, relative, row, b);
        AppendAssoc(cells, CellsLines(outputDir, relative, row[..b]), TdLines(outputDir, relative, row[b]));
        PutTd(row[b]);
      }
      assert row[..|row|] == row;
      Close("tr");
      AppendFour(old(html.items), [OpenLine("tr")], TagLines("td", model), CellsLines(outputDir, relative, row), [CloseLine("tr")]);
    }

    /** The table body: one row per model. */
    method PutBody(ms: seq<string>, rows: seq<seq<Groups>>)
      requires |rows| == |ms| && RowsRenderable(rows)
      modifies html
      ensures html.items == old(html.items) + BodyLines(outputDir, relative, ms, rows)
    {
      for m := 0 to |ms|
        invariant html.items == old(html.items) + BodyLines(outputDir, relative, ms[..m], rows[..m])
      {
        BodyLinesSnoc(outputDir, relative, ms, rows, m);
        AppendAssoc(old(html.items), BodyLines(outputDir, relative, ms[..m], rows[..m]), RowLines(outputDir, relative, ms[m], rows[m]));
        PutRow(ms[m], rows[m]);
      }
      assert ms[..|ms|] == ms && rows[..|ms|] == rows;
    }

    /**
     * `done`: renders the page and writes its lines, joined by newlines, to
     * the output file.  Reports `crashed` when a cell or an axis is missing.
     */
    method Done() returns (crashed: bool)
      modifies this, html
      ensures crashed == !old(Complete())
      ensures !crashed ==> html.items == old(html.items) + Page(outputDir, relative, old(models).value, old(browsers).value, old(Rows()))
      ensures !crashed ==> written == Some(Join(html.items, "\n"))
      ensures crashed ==> html.items == old(html.items) && written == old(written)
      ensures models == old(models) && browsers == old(browsers) && table == old(table) && errors == old(errors)
    {
      if !Complete() {
        return true;
      }
      var ms := models.value;
      var rows := Rows();
      PutPreamble();
      PutHeaderRow(browsers.value);
      PutBody(ms, rows);
      PutClosing();
      AppendFour(old(html.items), Preamble(), HeaderRow(browsers.value), BodyLines(outputDir, relative, ms, rows), Closing());
      written := Some(Join(html.items, "\n"));
      crashed := false;
    }
  }
}
