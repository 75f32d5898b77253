/**
  The exported HTML report.  The renderer glues together strings of which no
  one is a whole element; the result is still exactly the written form of one
  document tree.
*/
module HtmlReport {
  import opened Html
  import opened DiagnosticsPage

  /** The report's own texts, in whatever language; the first three are already filled in. */
  datatype Labels = Labels(
    generated: string, version: string, excluded: string,
    title: string, system: string, healthScore: string, checks: string)

  datatype Input = Input(
    labels: Labels, systemRows: seq<(string, string)>, scoreText: string, coverageText: string, cards: seq<CheckCard>)

  const STYLE_FONT := "body{font-family:sans-serif;"
  const STYLE_WIDTH := "max-width:48rem;margin:2rem auto;"
  const STYLE_PADDING := "padding:0 1rem}"
  const STYLE_TABLE := "table{border-collapse:collapse}"
  const STYLE_ALIGN := "th,td{text-align:left;"
  const STYLE_CELLS := "padding:.2rem .8rem .2rem 0}"
  const STYLE_HEADERS := "th{font-weight:600}"

  function Style(): string {
    STYLE_FONT + STYLE_WIDTH + STYLE_PADDING + STYLE_TABLE + STYLE_ALIGN + STYLE_CELLS + STYLE_HEADERS
  }

  const DASH := " \U{2014} "

  function Color(css: string): string {
    if css == "success" then "#1a7f37"
    else if css == "warning" then "#9a6700"
    else if css == "error" then "#cf222e"
    else "#57606a"
  }

  // -- the renderer ---------------------------------------------------------

  /** "\n".join(parts) */
  function Join(parts: seq<string>): string {
    if parts == [] then ""
    else if |parts| == 1 then parts[0]
    else Join(parts[..|parts|-1]) + "\n" + parts[|parts|-1]
  }

  function Cells(rows: seq<(string, string)>): string {
    if rows == [] then ""
    else "<tr><th>" + EscapeText(rows[0].0) + "</th><td>" + EscapeText(rows[0].1) + "</td></tr>" + Cells(rows[1..])
  }

  /** rows_table() */
  function RowsTable(rows: seq<(string, string)>): string { "<table>" + Cells(rows) + "</table>" }

  function HeadPart(labels: Labels): string { "<title>" + EscapeText(labels.title) + "</title>" }

  function FactsPart(labels: Labels): string {
    "<p>" + EscapeText(labels.generated) + "<br>" + EscapeText(labels.version) + "<br>" + EscapeText(labels.excluded)
        + "</p>"
  }

  function CardPart(card: CheckCard): string {
    "<h3>" + EscapeText(card.title) + DASH + "<span style=\"color:" + Color(card.statusCss) + "\">"
    + EscapeText(card.statusText) + "</span></h3>"
  }

  // -- the document ---------------------------------------------------------

  const NL := [Chr('\n')]

  function Heading(tag: string, text: string): Node { Elem(tag, "", Chars(text)) }

  function Row(row: (string, string)): Node {
    Elem("tr", "", [Elem("th", "", Chars(row.0)), Elem("td", "", Chars(row.1))])
  }

  function Rows(rows: seq<(string, string)>): seq<Node> { if rows == [] then [] else [Row(rows[0])] + Rows(rows[1..]) }

  function Table(rows: seq<(string, string)>): Node { Elem("table", "", Rows(rows)) }

  function Facts(labels: Labels): Node {
    Elem("p", "", Chars(labels.generated) + [Void("br", "")] + Chars(labels.version) + [Void("br", "")]
        + Chars(labels.excluded))
  }

  function Score(input: Input): Node {
    Elem("p", "", [Elem("strong", "", Chars(input.scoreText))] + Chars(DASH) + Chars(input.coverageText))
  }

  function CardHeading(card: CheckCard): Node {
    Elem("h3", "", Chars(card.title) + Chars(DASH)
                   + [Elem("span", " style=\"color:" + Color(card.statusCss) + "\"", Chars(card.statusText))])
  }

  function Intro(labels: Labels): seq<Node> { NL + [Heading("h1", labels.title)] + NL + [Facts(labels)] }

  function WithSystem(input: Input): seq<Node> {
    var intro := Intro(input.labels);
    if input.systemRows == [] then intro
    else intro + NL + [Heading("h2", input.labels.system)] + NL + [Table(input.systemRows)]
  }

  function WithScore(input: Input): seq<Node> {
    WithSystem(input) + NL + [Heading("h2", input.labels.healthScore)] + NL + [Score(input)]
    + NL + [Heading("h2", input.labels.checks)]
  }

  function WithCard(body: seq<Node>, card: CheckCard): seq<Node> {
    var headed := body + NL + [CardHeading(card)] + NL + [Heading("p", card.subtitle)];
    if card.evidence == [] then headed else headed + NL + [Table(card.evidence)]
  }

  function WithCards(body: seq<Node>, cards: seq<CheckCard>): seq<Node> {
    if cards == [] then body else WithCard(WithCards(body, cards[..|cards|-1]), cards[|cards|-1])
  }

  function Body(input: Input): seq<Node> { WithCards(WithScore(input), input.cards) + NL }

  function Head(labels: Labels): seq<Node> {
    [Void("meta", " charset=\"utf-8\"")] + NL + [Heading("title", labels.title)] + NL + [Heading("style", Style())] + NL
  }

  function Document(input: Input): Node {
    Elem("html", "", [Elem("head", "", Head(input.labels)), Elem("body", "", Body(input))])
  }

  const DOCTYPE := "<!DOCTYPE html>"

  // -- each part is written as its node -------------------------------------

  lemma HeadingIsWritten(tag: string, text: string)
    ensures WriteNode(Heading(tag, text)) == "<" + tag + ">" + EscapeText(text) + "</" + tag + ">"
  {
    WriteChars(text);
    assert "<" + tag + "" + ">" == "<" + tag + ">";
    hide Chars, Write, EscapeText;
  }

  lemma RowText(a: string, b: string)
    ensures "<tr>" + (("<th>" + a + "</th>") + ("<td>" + b + "</td>")) + "</tr>"
            == "<tr><th>" + a + "</th><td>" + b + "</td></tr>"
  {
    assert "<tr><th>" == "<tr>" + "<th>";
    assert "</th><td>" == "</th>" + "<td>";
    assert "</td></tr>" == "</td>" + "</tr>";
  }

  /** An element without attributes. */
  lemma PlainIsWritten(tag: string, kids: seq<Node>)
    ensures WriteNode(Elem(tag, "", kids)) == "<" + tag + ">" + Write(kids) + "</" + tag + ">"
  {
    assert "<" + tag + "" + ">" == "<" + tag + ">";
    hide Write;
  }

  lemma PairIsWritten(a: Node, b: Node)
    ensures Write([a, b]) == WriteNode(a) + WriteNode(b)
  {
    WriteConcat([a], [b]);
    WriteOne(a);
    WriteOne(b);
    assert [a] + [b] == [a, b];
    hide Write, WriteNode;
  }

  lemma RowIsWritten(row: (string, string))
    ensures WriteNode(Row(row)) == "<tr><th>" + EscapeText(row.0) + "</th><td>" + EscapeText(row.1) + "</td></tr>"
  {
    hide Write, WriteNode, Chars, EscapeText;
    var th, td := Heading("th", row.0), Heading("td", row.1);
    HeadingIsWritten("th", row.0);
    HeadingIsWritten("td", row.1);
    PairIsWritten(th, td);
    PlainIsWritten("tr", [th, td]);
    RowText(EscapeText(row.0), EscapeText(row.1));
    assert "<" + "tr" + ">" == "<tr>" && "</" + "tr" + ">" == "</tr>";
    assert "<" + "th" + ">" == "<th>" && "</" + "th" + ">" == "</th>";
    assert "<" + "td" + ">" == "<td>" && "</" + "td" + ">" == "</td>";
  }

  lemma {:induction false} RowsAreWritten(rows: seq<(string, string)>)
    ensures Write(Rows(rows)) == Cells(rows)
  {
    if rows != [] {
      RowsAreWritten(rows[1..]);
      RowIsWritten(rows[0]);
      assert Rows(rows)[1..] == Rows(rows[1..]);
      hide WriteNode, EscapeText, Row;
    }
  }

  lemma TableIsWritten(rows: seq<(string, string)>)
    ensures WriteNode(Table(rows)) == RowsTable(rows)
  {
    RowsAreWritten(rows);
    hide Write, Rows, Cells;
  }

  lemma FactsText(a: string, b: string, c: string)
    ensures "<p>" + (a + "<br>" + b + "<br>" + c) + "</p>" == "<p>" + a + "<br>" + b + "<br>" + c + "</p>"
  {
  }

  lemma FactsAreWritten(labels: Labels)
    ensures WriteNode(Facts(labels)) == FactsPart(labels)
  {
    var a, b, c, br := Chars(labels.generated), Chars(labels.version), Chars(labels.excluded), [Void("br", "")];
    WriteConcat(a, br);
    WriteConcat(a + br, b);
    WriteConcat(a + br + b, br);
    WriteConcat(a + br + b + br, c);
    WriteChars(labels.generated);
    WriteChars(labels.version);
    WriteChars(labels.excluded);
    assert Write(br) == "<br>" by { assert "<" + "br" + "" + ">" == "<br>"; }
    PlainIsWritten("p", a + br + b + br + c);
    assert "<" + "p" + ">" == "<p>" && "</" + "p" + ">" == "</p>";
    hide Write, WriteNode, Chars, EscapeText;
    FactsText(EscapeText(labels.generated), EscapeText(labels.version), EscapeText(labels.excluded));
  }

  lemma DashIsPlain()
    ensures Write(Chars(DASH)) == DASH
  {
    WriteChars(DASH);
  }

  /** The line with the score. */
  function ScorePart(input: Input): string {
    "<p><strong>" + EscapeText(input.scoreText) + "</strong>" + DASH + EscapeText(input.coverageText) + "</p>"
  }

  lemma ScoreText(a: string, b: string)
    ensures "<p>" + (("<strong>" + a + "</strong>") + DASH + b) + "</p>"
            == "<p><strong>" + a + "</strong>" + DASH + b + "</p>"
  {
    assert "<p><strong>" == "<p>" + "<strong>";
  }

  lemma ScoreIsWritten(input: Input)
    ensures WriteNode(Score(input)) == ScorePart(input)
  {
    hide Write, WriteNode, Chars, EscapeText;
    var strong := Heading("strong", input.scoreText);
    HeadingIsWritten("strong", input.scoreText);
    WriteOne(strong);
    WriteConcat([strong], Chars(DASH));
    WriteConcat([strong] + Chars(DASH), Chars(input.coverageText));
    DashIsPlain();
    WriteChars(input.coverageText);
    PlainIsWritten("p", [strong] + Chars(DASH) + Chars(input.coverageText));
    assert "<" + "p" + ">" == "<p>" && "</" + "p" + ">" == "</p>";
    assert "<" + "strong" + ">" == "<strong>" && "</" + "strong" + ">" == "</strong>";
    ScoreText(EscapeText(input.scoreText), EscapeText(input.coverageText));
  }

  function SpanAttrs(card: CheckCard): string { " style=\"color:" + Color(card.statusCss) + "\"" }

  lemma SpanText(color: string, b: string)
    ensures "<span" + (" style=\"color:" + color + "\"") + ">" + b + "</span>"
            == "<span style=\"color:" + color + "\">" + b + "</span>"
  {
    assert "<span style=\"color:" == "<span" + " style=\"color:";
    assert "\">" == "\"" + ">";
  }

  lemma SpanIsWritten(card: CheckCard)
    ensures WriteNode(Elem("span", SpanAttrs(card), Chars(card.statusText)))
         == "<span style=\"color:" + Color(card.statusCss) + "\">" + EscapeText(card.statusText) + "</span>"
  {
    WriteChars(card.statusText);
    hide Write, Chars, EscapeText, Color;
    SpanText(Color(card.statusCss), EscapeText(card.statusText));
    assert "<" + "span" == "<span" && "</" + "span" + ">" == "</span>";
  }

  lemma CardText(a: string, color: string, b: string)
    ensures "<h3>" + (a + DASH + ("<span style=\"color:" + color + "\">" + b + "</span>")) + "</h3>"
         == "<h3>" + a + DASH + "<span style=\"color:" + color + "\">" + b + "</span></h3>"
  {
    assert "</span></h3>" == "</span>" + "</h3>";
  }

  lemma CardHeadingIsWritten(card: CheckCard)
    ensures WriteNode(CardHeading(card)) == CardPart(card)
  {
    hide Write, WriteNode, Chars, EscapeText, Color;
    var span := Elem("span", SpanAttrs(card), Chars(card.statusText));
    SpanIsWritten(card);
    WriteOne(span);
    WriteConcat(Chars(card.title), Chars(DASH));
    WriteConcat(Chars(card.title) + Chars(DASH), [span]);
    DashIsPlain();
    WriteChars(card.title);
    PlainIsWritten("h3", Chars(card.title) + Chars(DASH) + [span]);
    assert "<" + "h3" + ">" == "<h3>" && "</" + "h3" + ">" == "</h3>";
    CardText(EscapeText(card.title), Color(card.statusCss), EscapeText(card.statusText));
  }

  // -- the parts together ---------------------------------------------------

  function Opening(labels: Labels): string {
    DOCTYPE + "\n<html>" + WriteNode(Elem("head", "", Head(labels))) + "<body>"
  }

  lemma AddPart(parts: seq<string>, opening: string, body: seq<Node>, part: string, n: Node)
    requires parts != [] && Join(parts) == opening + Write(body) && part == WriteNode(n)
    ensures Join(parts + [part]) == opening + Write(body + NL + [n])
  {
    assert (parts + [part])[..|parts|] == parts;
    WriteConcat(body, NL);
    WriteConcat(body + NL, [n]);
    WriteOne(n);
    NewlineIsWritten();
    hide Write, WriteNode;
  }

  lemma NewlineIsWritten()
    ensures Write(NL) == "\n"
  {
  }

  predicate Special(c: char) { c == '&' || c == '<' || c == '>' || c == '"' || c == '\'' }

  predicate Plain(s: string) { forall i | 0 <= i < |s| :: !Special(s[i]) }

  lemma {:induction false} PlainText(s: string)
    requires Plain(s)
    ensures EscapeText(s) == s
  {
    if s != "" { PlainText(s[1..]); }
  }

  /** The pieces of the style sheet need no escaping. */
  lemma FirstPiecesArePlain()
    ensures Plain(STYLE_FONT) && Plain(STYLE_WIDTH)
  {
  }

  lemma MiddlePiecesArePlain()
    ensures Plain(STYLE_PADDING) && Plain(STYLE_TABLE) && Plain(STYLE_ALIGN)
  {
  }

  lemma LastPiecesArePlain()
    ensures Plain(STYLE_CELLS) && Plain(STYLE_HEADERS)
  {
  }

  lemma PlainConcat(a: string, b: string)
    requires Plain(a) && Plain(b)
    ensures Plain(a + b)
  {
  }

  lemma StyleIsPlain()
    ensures EscapeText(Style()) == Style()
  {
    FirstPiecesArePlain();
    MiddlePiecesArePlain();
    LastPiecesArePlain();
    hide Plain;
    var a := STYLE_FONT + STYLE_WIDTH;
    PlainConcat(STYLE_FONT, STYLE_WIDTH);
    var b := a + STYLE_PADDING;
    PlainConcat(a, STYLE_PADDING);
    var c := b + STYLE_TABLE;
    PlainConcat(b, STYLE_TABLE);
    var d := c + STYLE_ALIGN;
    PlainConcat(c, STYLE_ALIGN);
    var e := d + STYLE_CELLS;
    PlainConcat(d, STYLE_CELLS);
    PlainConcat(e, STYLE_HEADERS);
    PlainText(Style());
  }

  const META := "<meta charset=\"utf-8\">"

  function StylePart(): string { "<style>" + Style() + "</style>" }

  lemma StyleIsWritten()
    ensures WriteNode(Heading("style", Style())) == StylePart()
  {
    HeadingIsWritten("style", Style());
    StyleIsPlain();
    hide WriteNode, EscapeText, Style;
    assert "<" + "style" + ">" == "<style>" && "</" + "style" + ">" == "</style>";
  }

  lemma TitleIsWritten(labels: Labels)
    ensures WriteNode(Heading("title", labels.title)) == HeadPart(labels)
  {
    HeadingIsWritten("title", labels.title);
    hide WriteNode, EscapeText;
    assert "<" + "title" + ">" == "<title>" && "</" + "title" + ">" == "</title>";
  }

  lemma MetaIsWritten()
    ensures WriteNode(Void("meta", " charset=\"utf-8\"")) == META
  {
  }

  lemma HeadIsWritten(labels: Labels)
    ensures Write(Head(labels)) == META + "\n" + HeadPart(labels) + "\n" + StylePart() + "\n"
  {
    MetaIsWritten();
    TitleIsWritten(labels);
    StyleIsWritten();
    NewlineIsWritten();
    hide Write, WriteNode, HeadPart, StylePart, Heading, META;
    var meta, title, style := [Void("meta", " charset=\"utf-8\"")], [Heading("title", labels.title)],
        [Heading("style", Style())];
    WriteConcat(meta, NL);
    WriteConcat(meta + NL, title);
    WriteConcat(meta + NL + title, NL);
    WriteConcat(meta + NL + title + NL, style);
    WriteConcat(meta + NL + title + NL + style, NL);
    WriteOne(meta[0]);
    WriteOne(title[0]);
    WriteOne(style[0]);
  }

  /** The parts up to the body. */
  function OpeningParts(labels: Labels): seq<string> {
    [DOCTYPE, "<html><head><meta charset=\"utf-8\">", HeadPart(labels), StylePart(), "</head><body>"]
  }

  lemma FiveParts(a: string, b: string, c: string, d: string, e: string)
    ensures Join([a, b, c, d, e]) == a + "\n" + b + "\n" + c + "\n" + d + "\n" + e
  {
    assert [a, b, c, d, e][..4] == [a, b, c, d] && [a, b, c, d][..3] == [a, b, c] && [a, b, c][..2] == [a, b]
        && [a, b][..1] == [a];
    assert Join([a, b]) == a + "\n" + b;
    assert Join([a, b, c]) == Join([a, b]) + "\n" + c;
    assert Join([a, b, c, d]) == Join([a, b, c]) + "\n" + d;
  }

  lemma Assoc(a: string, b: string, c: string)
    ensures a + b + c == a + (b + c)
  {
  }

  lemma OpeningTags()
    ensures "<html><head><meta charset=\"utf-8\">" == "<html><head>" + META
    ensures DOCTYPE + "\n" + "<html><head>" == DOCTYPE + "\n<html>" + "<head>"
    ensures "</head><body>" == "</head>" + "<body>"
  {
  }

  /** The parts before, around and after the two inner elements of the head, regrouped as elements. */
  lemma OpeningText(title: string, style: string)
    ensures DOCTYPE + "\n" + "<html><head><meta charset=\"utf-8\">" + "\n" + title + "\n" + style + "\n"
            + "</head><body>"
         == DOCTYPE + "\n<html>" + ("<head>" + (META + "\n" + title + "\n" + style + "\n") + "</head>") + "<body>"
  {
    OpeningTags();
    hide DOCTYPE, META;
    var before, outer := DOCTYPE + "\n" + "<html><head>", DOCTYPE + "\n<html>";
    var head := META + "\n" + title + "\n" + style + "\n";
    Assoc(DOCTYPE + "\n", "<html><head>", META);
    Assoc(before, META, "\n");
    Assoc(before, META + "\n", title);
    Assoc(before, META + "\n" + title, "\n");
    Assoc(before, META + "\n" + title + "\n", style);
    Assoc(before, META + "\n" + title + "\n" + style, "\n");
    Assoc(outer, "<head>", head);
    Assoc(outer, "<head>" + head, "</head>");
    Assoc(before + head, "</head>", "<body>");
  }

  lemma OpeningIsWritten(labels: Labels)
    ensures Join(OpeningParts(labels)) == Opening(labels)
  {
    hide Join, Write, WriteNode, StylePart, HeadPart, Head;
    FiveParts(DOCTYPE, "<html><head><meta charset=\"utf-8\">", HeadPart(labels), StylePart(), "</head><body>");
    HeadIsWritten(labels);
    PlainIsWritten("head", Head(labels));
    assert "<" + "head" + ">" == "<head>" && "</" + "head" + ">" == "</head>";
    OpeningText(HeadPart(labels), StylePart());
  }

  /** The closing part ends the body and the document. */
  lemma ClosingText(head: string, body: string)
    ensures DOCTYPE + "\n<html>" + head + "<body>" + body + "\n" + "</body></html>" + "\n"
         == DOCTYPE + "\n" + ("<html>" + (head + ("<body>" + (body + "\n") + "</body>")) + "</html>") + "\n"
  {
    assert "</body></html>" == "</body>" + "</html>";
    assert DOCTYPE + "\n<html>" == DOCTYPE + "\n" + "<html>";
    hide DOCTYPE;
    var before, inner := DOCTYPE + "\n" + "<html>", body + "\n";
    var element := "<body>" + inner + "</body>";
    Assoc(before + head + "<body>", body, "\n");
    Assoc(before + head + "<body>" + inner, "</body>", "</html>");
    Assoc(before + head, "<body>", inner);
    Assoc(before + head, "<body>" + inner, "</body>");
    Assoc(before, head, element);
    Assoc(DOCTYPE + "\n", "<html>", head + element);
    Assoc(DOCTYPE + "\n", "<html>" + (head + element), "</html>");
  }

  /** The last part closes what the first ones opened. */
  lemma ClosingIsWritten(input: Input, parts: seq<string>, body: seq<Node>)
    requires parts != [] && Join(parts) == Opening(input.labels) + Write(body) && Body(input) == body + NL
    ensures Join(parts + ["</body></html>"]) + "\n" == ReportText(input)
  {
    assert (parts + ["</body></html>"])[..|parts|] == parts;
    assert Join(parts + ["</body></html>"]) == Join(parts) + "\n" + "</body></html>";
    hide Write, WriteNode, Head, Body, Join;
    DocumentIsWritten(input, body);
    var head, before := WriteNode(Elem("head", "", Head(input.labels))), DOCTYPE + "\n<html>";
    Assoc(before + head, "<body>", Write(body));
    ClosingText(head, Write(body));
  }

  lemma DocumentIsWritten(input: Input, body: seq<Node>)
    requires Body(input) == body + NL
    ensures WriteNode(Document(input)) ==
              "<html>" + (WriteNode(Elem("head", "", Head(input.labels)))
                  + ("<body>" + (Write(body) + "\n") + "</body>")) + "</html>"
  {
    NewlineIsWritten();
    WriteConcat(body, NL);
    var head, whole := Elem("head", "", Head(input.labels)), Elem("body", "", body + NL);
    hide Write, WriteNode, Head, Body;
    PairIsWritten(head, whole);
    PlainIsWritten("html", [head, whole]);
    PlainIsWritten("body", body + NL);
    assert "<" + "html" + ">" == "<html>" && "</" + "html" + ">" == "</html>";
    assert "<" + "body" + ">" == "<body>" && "</" + "body" + ">" == "</body>";
  }

  /** What render_html() returns. */
  function ReportText(input: Input): string { DOCTYPE + "\n" + WriteNode(Document(input)) + "\n" }

  lemma HeadingPart(tag: string, text: string, part: string)
    requires part == "<" + tag + ">" + EscapeText(text) + "</" + tag + ">"
    ensures part == WriteNode(Heading(tag, text))
  {
    HeadingIsWritten(tag, text);
    hide WriteNode, EscapeText;
  }

  /** The parts that open the report, down to the facts about it. */
  lemma FirstParts(labels: Labels, parts: seq<string>)
    requires parts == OpeningParts(labels) + ["<h1>" + EscapeText(labels.title) + "</h1>"] + [FactsPart(labels)]
    ensures Join(parts) == Opening(labels) + Write(Intro(labels))
  {
    var h1 := Heading("h1", labels.title);
    HeadingPart("h1", labels.title, "<" + "h1" + ">" + EscapeText(labels.title) + "</" + "h1" + ">");
    assert "<" + "h1" + ">" == "<h1>" && "</" + "h1" + ">" == "</h1>";
    OpeningIsWritten(labels);
    FactsAreWritten(labels);
    assert Opening(labels) + Write([]) == Opening(labels);
    hide Join, Write, WriteNode, EscapeText, Opening, FactsPart, Facts, Heading;
    AddPart(OpeningParts(labels), Opening(labels), [], "<h1>" + EscapeText(labels.title) + "</h1>", h1);
    AddPart(OpeningParts(labels) + ["<h1>" + EscapeText(labels.title) + "</h1>"], Opening(labels), [] + NL + [h1],
            FactsPart(labels), Facts(labels));
    assert [] + NL + [h1] + NL + [Facts(labels)] == Intro(labels);
  }

  lemma AddHeading2(parts: seq<string>, opening: string, body: seq<Node>, text: string)
    requires parts != [] && Join(parts) == opening + Write(body)
    ensures Join(parts + ["<h2>" + EscapeText(text) + "</h2>"]) == opening + Write(body + NL + [Heading("h2", text)])
  {
    assert "<" + "h2" + ">" == "<h2>" && "</" + "h2" + ">" == "</h2>";
    HeadingIsWritten("h2", text);
    hide Join, Write, WriteNode, EscapeText, Heading;
    AddPart(parts, opening, body, "<h2>" + EscapeText(text) + "</h2>", Heading("h2", text));
  }

  lemma AddTable(parts: seq<string>, opening: string, body: seq<Node>, rows: seq<(string, string)>)
    requires parts != [] && Join(parts) == opening + Write(body)
    ensures Join(parts + [RowsTable(rows)]) == opening + Write(body + NL + [Table(rows)])
  {
    TableIsWritten(rows);
    hide Join, Write, WriteNode, RowsTable, Table;
    AddPart(parts, opening, body, RowsTable(rows), Table(rows));
  }

  lemma AddScore(parts: seq<string>, opening: string, body: seq<Node>, input: Input)
    requires parts != [] && Join(parts) == opening + Write(body)
    ensures Join(parts + [ScorePart(input)]) == opening + Write(body + NL + [Score(input)])
  {
    ScoreIsWritten(input);
    hide Join, Write, WriteNode, ScorePart, Score;
    AddPart(parts, opening, body, ScorePart(input), Score(input));
  }

  lemma AddCardHead(parts: seq<string>, opening: string, body: seq<Node>, card: CheckCard)
    requires parts != [] && Join(parts) == opening + Write(body)
    ensures Join(parts + [CardPart(card)] + ["<p>" + EscapeText(card.subtitle) + "</p>"])
         == opening + Write(body + NL + [CardHeading(card)] + NL + [Heading("p", card.subtitle)])
  {
    CardHeadingIsWritten(card);
    assert "<" + "p" + ">" == "<p>" && "</" + "p" + ">" == "</p>";
    HeadingIsWritten("p", card.subtitle);
    hide Join, Write, WriteNode, EscapeText, CardPart, CardHeading, Heading;
    AddPart(parts, opening, body, CardPart(card), CardHeading(card));
    AddPart(parts + [CardPart(card)], opening, body + NL + [CardHeading(card)],
            "<p>" + EscapeText(card.subtitle) + "</p>", Heading("p", card.subtitle));
  }

  function H2Part(text: string): string { "<h2>" + EscapeText(text) + "</h2>" }

  function SubtitlePart(card: CheckCard): string { "<p>" + EscapeText(card.subtitle) + "</p>" }

  lemma AddSystem(parts: seq<string>, opening: string, input: Input)
    requires parts != [] && Join(parts) == opening + Write(Intro(input.labels)) && input.systemRows != []
    ensures Join(parts + [H2Part(input.labels.system)] + [RowsTable(input.systemRows)])
            == opening + Write(WithSystem(input))
  {
    hide Join, Write, RowsTable, Heading, Table, EscapeText, Intro;
    var body := Intro(input.labels);
    AddHeading2(parts, opening, body, input.labels.system);
    AddTable(parts + [H2Part(input.labels.system)], opening, body + NL + [Heading("h2", input.labels.system)],
             input.systemRows);
  }

  lemma AddScoreSection(parts: seq<string>, opening: string, input: Input)
    requires parts != [] && Join(parts) == opening + Write(WithSystem(input))
    ensures Join(parts + [H2Part(input.labels.healthScore)] + [ScorePart(input)] + [H2Part(input.labels.checks)])
         == opening + Write(WithScore(input))
  {
    hide Join, Write, ScorePart, Heading, Score, EscapeText, WithSystem;
    var body, first := WithSystem(input), parts + [H2Part(input.labels.healthScore)];
    AddHeading2(parts, opening, body, input.labels.healthScore);
    var headed := body + NL + [Heading("h2", input.labels.healthScore)];
    AddScore(first, opening, headed, input);
    AddHeading2(first + [ScorePart(input)], opening, headed + NL + [Score(input)], input.labels.checks);
  }

  lemma AddEvidence(parts: seq<string>, opening: string, body: seq<Node>, card: CheckCard)
    requires parts != [] && Join(parts) == opening + Write(body) && card.evidence != []
    ensures Join(parts + [CardPart(card)] + [SubtitlePart(card)] + [RowsTable(card.evidence)])
            == opening + Write(WithCard(body, card))
  {
    AddCardHead(parts, opening, body, card);
    hide Join, Write, RowsTable, Heading, CardHeading, CardPart, Table, EscapeText;
    AddTable(parts + [CardPart(card)] + [SubtitlePart(card)], opening,
             body + NL + [CardHeading(card)] + NL + [Heading("p", card.subtitle)], card.evidence);
  }

  lemma AddBareCard(parts: seq<string>, opening: string, body: seq<Node>, card: CheckCard)
    requires parts != [] && Join(parts) == opening + Write(body) && card.evidence == []
    ensures Join(parts + [CardPart(card)] + [SubtitlePart(card)]) == opening + Write(WithCard(body, card))
  {
    AddCardHead(parts, opening, body, card);
    hide Join, Write, Heading, CardHeading, CardPart, EscapeText;
  }

  lemma NoCards(body: seq<Node>, cards: seq<CheckCard>)
    ensures WithCards(body, cards[..0]) == body
  {
  }

  lemma WithNextCard(body: seq<Node>, cards: seq<CheckCard>, i: nat)
    requires i < |cards|
    ensures WithCards(body, cards[..i+1]) == WithCard(WithCards(body, cards[..i]), cards[i])
  {
    assert cards[..i+1][..i] == cards[..i];
  }

  lemma CloseReport(input: Input, parts: seq<string>)
    requires parts != [] && Join(parts) == Opening(input.labels) + Write(WithCards(WithScore(input), input.cards))
    ensures Join(parts + ["</body></html>"]) + "\n" == ReportText(input)
  {
    hide Join, Write, Opening, WithScore, ReportText;
    ClosingIsWritten(input, parts, WithCards(WithScore(input), input.cards));
  }

  /** The parts of one card. */
  method AppendCard(parts: seq<string>, card: CheckCard, ghost opening: string, ghost body: seq<Node>)
      returns (r: seq<string>)
    requires parts != [] && Join(parts) == opening + Write(body)
    ensures r != [] && Join(r) == opening + Write(WithCard(body, card))
  {
    hide *;
    r := parts + [CardPart(card)];
    r := r + [SubtitlePart(card)];
    if card.evidence != [] {
      r := r + [RowsTable(card.evidence)];
      AddEvidence(parts, opening, body, card);
    } else {
      AddBareCard(parts, opening, body, card);
    }
  }

  /** The parts before the cards. */
  method AppendSections(parts: seq<string>, input: Input, ghost opening: string) returns (r: seq<string>)
    requires parts != [] && Join(parts) == opening + Write(Intro(input.labels))
    ensures r != [] && Join(r) == opening + Write(WithScore(input))
  {
    assert input.systemRows == [] ==> WithSystem(input) == Intro(input.labels);
    hide *;
    r := parts;
    if input.systemRows != [] {
      r := r + [H2Part(input.labels.system)];
      r := r + [RowsTable(input.systemRows)];
      AddSystem(parts, opening, input);
    }
    AddScoreSection(r, opening, input);
    r := r + [H2Part(input.labels.healthScore)];
    r := r + [ScorePart(input)];
    r := r + [H2Part(input.labels.checks)];
  }

  /** render_html() */
  method RenderHtml(input: Input) returns (out: string)
    ensures out == ReportText(input)
  {
    var parts := OpeningParts(input.labels) + ["<h1>" + EscapeText(input.labels.title) + "</h1>"]
        + [FactsPart(input.labels)];
    FirstParts(input.labels, parts);
    hide *;
    ghost var opening := Opening(input.labels);
    parts := AppendSections(parts, input, opening);
    NoCards(WithScore(input), input.cards);
    for i := 0 to |input.cards|
      invariant parts != [] && Join(parts) == opening + Write(WithCards(WithScore(input), input.cards[..i]))
    {
      WithNextCard(WithScore(input), input.cards, i);
      parts := AppendCard(parts, input.cards[i], opening, WithCards(WithScore(input), input.cards[..i]));
    }
    assert input.cards[..|input.cards|] == input.cards;
    CloseReport(input, parts);
    parts := parts + ["</body></html>"];
    out := Join(parts) + "\n";
  }
}
