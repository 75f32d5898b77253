/**
  What a reader finds in the exported report: every tag balanced, every datum as it was, no tag
  that a datum brought.
*/
module HtmlReportReading {
  import opened Common
  import C = Checks
  import opened DiagnosticsPage
  import opened Html
  import opened HtmlReport

  // -- the tags are good ----------------------------------------------------

  lemma HeadingIsGood(tag: string, text: string)
    requires GoodTag(tag, "") && !IsVoid(tag)
    ensures Good([Heading(tag, text)])
  {
    TextOfChars(text);
    hide GoodTag, IsVoid;
  }

  lemma AddNode(body: seq<Node>, n: Node)
    requires Good(body) && Good([n])
    ensures Good(body + NL + [n])
  {
    GoodConcat(body, NL);
    GoodConcat(body + NL, [n]);
  }

  lemma RowIsGood(row: (string, string))
    ensures Good([Row(row)])
  {
    HeadingIsGood("th", row.0);
    HeadingIsGood("td", row.1);
    GoodConcat([Heading("th", row.0)], [Heading("td", row.1)]);
    hide Chars;
    assert [Heading("th", row.0)] + [Heading("td", row.1)] == [Heading("th", row.0), Heading("td", row.1)];
  }

  lemma {:induction false} TableIsGood(rows: seq<(string, string)>)
    ensures Good(Rows(rows)) && Good([Table(rows)])
  {
    if rows != [] {
      RowIsGood(rows[0]);
      TableIsGood(rows[1..]);
      GoodConcat([Row(rows[0])], Rows(rows[1..]));
      hide Row;
    }
  }

  lemma FactsAreGood(labels: Labels)
    ensures Good([Facts(labels)])
  {
    var a, b, c, br := Chars(labels.generated), Chars(labels.version), Chars(labels.excluded), [Void("br", "")];
    TextOfChars(labels.generated);
    TextOfChars(labels.version);
    TextOfChars(labels.excluded);
    assert Good(br);
    GoodConcat(a, br);
    GoodConcat(a + br, b);
    GoodConcat(a + br + b, br);
    GoodConcat(a + br + b + br, c);
    hide Chars;
  }

  lemma ScoreIsGood(input: Input)
    ensures Good([Score(input)])
  {
    var strong, dash, coverage := [Heading("strong", input.scoreText)], Chars(DASH), Chars(input.coverageText);
    HeadingIsGood("strong", input.scoreText);
    TextOfChars(DASH);
    TextOfChars(input.coverageText);
    hide Chars;
    GoodConcat(strong, dash);
    GoodConcat(strong + dash, coverage);
  }

  lemma ColorIsGood(css: string)
    ensures '>' !in Color(css)
  {
  }

  lemma SpanAttrsAreGood(card: CheckCard)
    ensures SpanAttrs(card) != "" && SpanAttrs(card)[0] == ' ' && '>' !in SpanAttrs(card)
  {
    ColorIsGood(card.statusCss);
    hide Color;
    assert '>' !in " style=\"color:";
  }

  lemma SpanIsGood(card: CheckCard)
    ensures Good([Elem("span", SpanAttrs(card), Chars(card.statusText))])
  {
    SpanAttrsAreGood(card);
    TextOfChars(card.statusText);
    hide Chars, SpanAttrs;
  }

  lemma CardHeadingIsGood(card: CheckCard)
    ensures Good([CardHeading(card)])
  {
    var title, dash, span := Chars(card.title), Chars(DASH), [Elem("span", SpanAttrs(card), Chars(card.statusText))];
    TextOfChars(card.title);
    TextOfChars(DASH);
    SpanIsGood(card);
    hide Chars, Color;
    GoodConcat(title, dash);
    GoodConcat(title + dash, span);
  }

  lemma {:induction false} CardsAreGood(body: seq<Node>, cards: seq<CheckCard>)
    requires Good(body)
    ensures Good(WithCards(body, cards))
  {
    if cards != [] {
      var before, card := WithCards(body, cards[..|cards|-1]), cards[|cards|-1];
      CardsAreGood(body, cards[..|cards|-1]);
      CardHeadingIsGood(card);
      HeadingIsGood("p", card.subtitle);
      TableIsGood(card.evidence);
      hide Good, CardHeading, Heading, Table;
      AddNode(before, CardHeading(card));
      AddNode(before + NL + [CardHeading(card)], Heading("p", card.subtitle));
      if card.evidence != [] {
        AddNode(before + NL + [CardHeading(card)] + NL + [Heading("p", card.subtitle)], Table(card.evidence));
      }
    }
  }

  lemma SystemSectionIsGood(input: Input)
    ensures Good(WithSystem(input))
  {
    var h1, h2 := Heading("h1", input.labels.title), Heading("h2", input.labels.system);
    HeadingIsGood("h1", input.labels.title);
    HeadingIsGood("h2", input.labels.system);
    FactsAreGood(input.labels);
    TableIsGood(input.systemRows);
    assert Good([]);
    hide Good, Heading, Table, Facts;
    AddNode([], h1);
    AddNode([] + NL + [h1], Facts(input.labels));
    assert [] + NL + [h1] + NL + [Facts(input.labels)] == Intro(input.labels);
    hide Intro;
    AddNode(Intro(input.labels), h2);
    AddNode(Intro(input.labels) + NL + [h2], Table(input.systemRows));
  }

  lemma ScoreSectionIsGood(input: Input)
    ensures Good(WithScore(input))
  {
    SystemSectionIsGood(input);
    HeadingIsGood("h2", input.labels.healthScore);
    HeadingIsGood("h2", input.labels.checks);
    ScoreIsGood(input);
    hide Good, Heading, Score, WithSystem;
    var body, h2 := WithSystem(input), Heading("h2", input.labels.healthScore);
    AddNode(body, h2);
    AddNode(body + NL + [h2], Score(input));
    AddNode(body + NL + [h2] + NL + [Score(input)], Heading("h2", input.labels.checks));
  }

  lemma MetaIsGood()
    ensures Good([Void("meta", " charset=\"utf-8\"")])
  {
  }

  lemma HeadIsGood(labels: Labels)
    ensures Good(Head(labels))
  {
    var meta := [Void("meta", " charset=\"utf-8\"")];
    MetaIsGood();
    HeadingIsGood("title", labels.title);
    HeadingIsGood("style", Style());
    hide Good, Heading, Style;
    AddNode(meta, Heading("title", labels.title));
    AddNode(meta + NL + [Heading("title", labels.title)], Heading("style", Style()));
    AddNewline(meta + NL + [Heading("title", labels.title)] + NL + [Heading("style", Style())]);
  }

  lemma AddNewline(body: seq<Node>)
    requires Good(body)
    ensures Good(body + NL)
  {
    GoodConcat(body, NL);
  }

  lemma ElementsAreGood(head: seq<Node>, body: seq<Node>)
    requires Good(head) && Good(body)
    ensures Good([Elem("html", "", [Elem("head", "", head), Elem("body", "", body)])])
  {
    GoodConcat([Elem("head", "", head)], [Elem("body", "", body)]);
    assert [Elem("head", "", head)] + [Elem("body", "", body)] == [Elem("head", "", head), Elem("body", "", body)];
  }

  lemma DocumentIsGood(input: Input)
    ensures Good([Document(input)])
  {
    HeadIsGood(input.labels);
    ScoreSectionIsGood(input);
    CardsAreGood(WithScore(input), input.cards);
    AddNewline(WithCards(WithScore(input), input.cards));
    ElementsAreGood(Head(input.labels), Body(input));
    hide Good;
  }

  /**
    For every input the report is well nested and reads back as its document: a strict reader, after the
    doctype, finds one html element and nothing open at the end.
  */
  lemma ReportReadsBack(input: Input)
    ensures var text := ReportText(input);
            && |text| > 15 && text[..15] == "<!DOCTYPE html>"
            && Read(text[16..], [], []) == Some([Document(input)] + NL)
  {
    assert DOCTYPE == "<!DOCTYPE html>" && |DOCTYPE| == 15;
    DocumentIsGood(input);
    AddNewline([Document(input)]);
    WrittenReadsBack([Document(input)] + NL);
    WriteConcat([Document(input)], NL);
    WriteOne(Document(input));
    NewlineIsWritten();
    hide Good, Read, Document, Write, WriteNode;
    AfterDoctype(WriteNode(Document(input)));
  }

  lemma AfterDoctype(html: string)
    ensures var text := DOCTYPE + "\n" + html + "\n";
            |text| > |DOCTYPE| && text[..|DOCTYPE|] == DOCTYPE && text[|DOCTYPE|+1..] == html + "\n"
  {
    hide DOCTYPE;
    var text := DOCTYPE + "\n" + html + "\n";
    assert text == DOCTYPE + ("\n" + (html + "\n"));
  }

  // -- the data come back ---------------------------------------------------

  /** The tags whose text is data. */
  predicate DataTag(tag: string) {
    || tag == "title" || tag == "h1" || tag == "h2" || tag == "th" || tag == "td" || tag == "h3" || tag == "span"
    || tag == "p" || tag == "strong"
  }

  function If(b: bool, s: string): seq<string> { if b then [s] else [] }

  function RowTexts(rows: seq<(string, string)>, tag: string): seq<string> {
    if rows == [] then [] else If(tag == "th", rows[0].0) + If(tag == "td", rows[0].1) + RowTexts(rows[1..], tag)
  }

  function CardTexts(card: CheckCard, tag: string): seq<string> {
    If(tag == "h3", card.title + DASH) + If(tag == "span", card.statusText) + If(tag == "p", card.subtitle)
    + RowTexts(card.evidence, tag)
  }

  function CardsTexts(cards: seq<CheckCard>, tag: string): seq<string> {
    if cards == [] then [] else CardsTexts(cards[..|cards|-1], tag) + CardTexts(cards[|cards|-1], tag)
  }

  function FactTexts(labels: Labels, tag: string): seq<string> {
    If(tag == "h1", labels.title) + If(tag == "p", labels.generated + labels.version + labels.excluded)
  }

  /** The system section is there when there is a row for it. */
  function SystemTexts(input: Input, tag: string): seq<string> {
    if input.systemRows == [] then [] else If(tag == "h2", input.labels.system) + RowTexts(input.systemRows, tag)
  }

  function HealthTexts(input: Input, tag: string): seq<string> {
    If(tag == "h2", input.labels.healthScore)
    + (If(tag == "p", DASH + input.coverageText) + If(tag == "strong", input.scoreText))
  }

  /** The input's texts that belong under a tag, in the order they were given. */
  function DataTexts(input: Input, tag: string): seq<string> {
    If(tag == "title", input.labels.title)
    + (FactTexts(input.labels, tag) + SystemTexts(input, tag) + HealthTexts(input, tag)
       + If(tag == "h2", input.labels.checks) + CardsTexts(input.cards, tag))
  }

  lemma {:induction false} TextOfConcat(a: seq<Node>, b: seq<Node>)
    ensures TextOf(a + b) == TextOf(a) + TextOf(b)
  {
    if a == [] {
      assert a + b == b;
    } else {
      assert (a + b)[0] == a[0] && (a + b)[1..] == a[1..] + b;
      TextOfConcat(a[1..], b);
    }
  }

  lemma ElemTexts(n: Node, tag: string)
    requires n.Elem?
    ensures TextsIn([n], tag) == If(n.tag == tag, TextOf(n.kids)) + TextsIn(n.kids, tag)
  {
  }

  lemma HeadingTexts(t: string, text: string, tag: string)
    ensures TextsIn([Heading(t, text)], tag) == If(t == tag, text)
  {
    ElemTexts(Heading(t, text), tag);
    TextOfChars(text);
    CharsHoldNothing(text, tag);
    hide Chars, TextsIn, TextOf;
  }

  lemma AddTexts(body: seq<Node>, n: Node, tag: string)
    ensures TextsIn(body + NL + [n], tag) == TextsIn(body, tag) + TextsIn([n], tag)
  {
    TextsConcat(body, NL, tag);
    TextsConcat(body + NL, [n], tag);
    assert TextsIn(NL, tag) == [];
    hide TextsIn;
  }

  lemma RowTextsIn(row: (string, string), tag: string)
    requires DataTag(tag)
    ensures TextsIn([Row(row)], tag) == If(tag == "th", row.0) + If(tag == "td", row.1)
  {
    var th, td := Heading("th", row.0), Heading("td", row.1);
    ElemTexts(Row(row), tag);
    TextsConcat([th], [td], tag);
    assert [th] + [td] == [th, td];
    HeadingTexts("th", row.0, tag);
    HeadingTexts("td", row.1, tag);
    hide TextsIn, TextOf, Chars;
    assert tag != "tr";
    hide DataTag;
  }

  lemma {:induction false} RowsTexts(rows: seq<(string, string)>, tag: string)
    requires DataTag(tag)
    ensures TextsIn(Rows(rows), tag) == RowTexts(rows, tag)
  {
    if rows != [] {
      RowsTexts(rows[1..], tag);
      TextsConcat([Row(rows[0])], Rows(rows[1..]), tag);
      RowTextsIn(rows[0], tag);
      hide TextsIn, Row, If, DataTag;
    }
  }

  lemma TableTexts(rows: seq<(string, string)>, tag: string)
    requires DataTag(tag)
    ensures TextsIn([Table(rows)], tag) == RowTexts(rows, tag)
  {
    ElemTexts(Table(rows), tag);
    RowsTexts(rows, tag);
    hide TextsIn, TextOf, Rows, RowTexts;
  }

  /** Five texts, each holding no element with text, put together. */
  lemma FactsText(labels: Labels)
    ensures TextOf(Facts(labels).kids) == labels.generated + labels.version + labels.excluded
  {
    var a, b, c, br := Chars(labels.generated), Chars(labels.version), Chars(labels.excluded), [Void("br", "")];
    assert TextOf(br) == "";
    TextOfChars(labels.generated);
    TextOfChars(labels.version);
    TextOfChars(labels.excluded);
    hide TextOf, Chars;
    TextOfConcat(a, br);
    TextOfConcat(a + br, b);
    TextOfConcat(a + br + b, br);
    TextOfConcat(a + br + b + br, c);
  }

  lemma FactsInside(labels: Labels, tag: string)
    ensures TextsIn(Facts(labels).kids, tag) == []
  {
    var a, b, c, br := Chars(labels.generated), Chars(labels.version), Chars(labels.excluded), [Void("br", "")];
    assert TextsIn(br, tag) == [];
    CharsHoldNothing(labels.generated, tag);
    CharsHoldNothing(labels.version, tag);
    CharsHoldNothing(labels.excluded, tag);
    hide TextsIn, Chars;
    TextsConcat(a, br, tag);
    TextsConcat(a + br, b, tag);
    TextsConcat(a + br + b, br, tag);
    TextsConcat(a + br + b + br, c, tag);
  }

  lemma FactsTexts(labels: Labels, tag: string)
    ensures TextsIn([Facts(labels)], tag) == If(tag == "p", labels.generated + labels.version + labels.excluded)
  {
    ElemTexts(Facts(labels), tag);
    FactsText(labels);
    FactsInside(labels, tag);
    hide TextsIn, TextOf, Chars;
  }

  lemma ScoreTexts(input: Input, tag: string)
    requires DataTag(tag)
    ensures TextsIn([Score(input)], tag)
            == If(tag == "p", DASH + input.coverageText) + If(tag == "strong", input.scoreText)
  {
    var strong, dash, coverage := [Heading("strong", input.scoreText)], Chars(DASH), Chars(input.coverageText);
    ElemTexts(Score(input), tag);
    HeadingTexts("strong", input.scoreText, tag);
    assert TextOf(strong) == "";
    CharsHoldNothing(DASH, tag);
    CharsHoldNothing(input.coverageText, tag);
    TextOfChars(DASH);
    TextOfChars(input.coverageText);
    hide TextsIn, TextOf, Chars;
    TextsConcat(strong, dash, tag);
    TextsConcat(strong + dash, coverage, tag);
    TextOfConcat(strong, dash);
    TextOfConcat(strong + dash, coverage);
    assert TextsIn(strong + dash + coverage, tag) == If(tag == "strong", input.scoreText);
    assert TextOf(strong + dash + coverage) == DASH + input.coverageText;
    hide DataTag, DASH;
  }

  lemma CardHeadingTexts(card: CheckCard, tag: string)
    ensures TextsIn([CardHeading(card)], tag) == If(tag == "h3", card.title + DASH) + If(tag == "span", card.statusText)
  {
    var title, dash, span := Chars(card.title), Chars(DASH), Elem("span", SpanAttrs(card), Chars(card.statusText));
    ElemTexts(CardHeading(card), tag);
    ElemTexts(span, tag);
    assert TextOf([span]) == "";
    CharsHoldNothing(card.title, tag);
    CharsHoldNothing(DASH, tag);
    CharsHoldNothing(card.statusText, tag);
    TextOfChars(card.title);
    TextOfChars(DASH);
    TextOfChars(card.statusText);
    hide TextsIn, TextOf, Chars, Color;
    TextsConcat(title, dash, tag);
    TextsConcat(title + dash, [span], tag);
    TextOfConcat(title, dash);
    TextOfConcat(title + dash, [span]);
    assert TextsIn(title + dash + [span], tag) == If(tag == "span", card.statusText);
    assert TextOf(title + dash + [span]) == card.title + DASH;
    hide DASH;
  }

  lemma RegroupCard(body: seq<string>, h: seq<string>, s: seq<string>, p: seq<string>, rows: seq<string>)
    ensures body + (h + s) + p + rows == body + (h + s + p + rows)
    ensures rows == [] ==> body + (h + s) + p == body + (h + s + p + rows)
  {
  }

  lemma WithCardTexts(body: seq<Node>, card: CheckCard, tag: string)
    requires DataTag(tag)
    ensures TextsIn(WithCard(body, card), tag) == TextsIn(body, tag) + CardTexts(card, tag)
  {
    CardHeadingTexts(card, tag);
    HeadingTexts("p", card.subtitle, tag);
    TableTexts(card.evidence, tag);
    var h, span, p := If(tag == "h3", card.title + DASH), If(tag == "span", card.statusText),
        If(tag == "p", card.subtitle);
    assert If("p" == tag, card.subtitle) == p;
    assert card.evidence == [] ==> RowTexts(card.evidence, tag) == [];
    hide TextsIn, CardHeading, Heading, Table, If, RowTexts, DataTag, DASH;
    RegroupCard(TextsIn(body, tag), h, span, p, RowTexts(card.evidence, tag));
    AddTexts(body, CardHeading(card), tag);
    AddTexts(body + NL + [CardHeading(card)], Heading("p", card.subtitle), tag);
    if card.evidence != [] {
      AddTexts(body + NL + [CardHeading(card)] + NL + [Heading("p", card.subtitle)], Table(card.evidence), tag);
    }
  }

  lemma Regroup(a: seq<string>, b: seq<string>, c: seq<string>)
    ensures a + b + c == a + (b + c)
  {
  }

  lemma {:induction false} WithCardsTexts(body: seq<Node>, cards: seq<CheckCard>, tag: string)
    requires DataTag(tag)
    ensures TextsIn(WithCards(body, cards), tag) == TextsIn(body, tag) + CardsTexts(cards, tag)
  {
    if cards != [] {
      WithCardsTexts(body, cards[..|cards|-1], tag);
      WithCardTexts(WithCards(body, cards[..|cards|-1]), cards[|cards|-1], tag);
      Regroup(TextsIn(body, tag), CardsTexts(cards[..|cards|-1], tag), CardTexts(cards[|cards|-1], tag));
      hide TextsIn, WithCard, CardTexts, DataTag;
    }
  }

  lemma AddHeading(body: seq<Node>, t: string, text: string, tag: string)
    ensures TextsIn(body + NL + [Heading(t, text)], tag) == TextsIn(body, tag) + If(t == tag, text)
  {
    HeadingTexts(t, text, tag);
    AddTexts(body, Heading(t, text), tag);
    hide TextsIn, Heading;
  }

  lemma IntroTexts(labels: Labels, tag: string)
    ensures TextsIn(Intro(labels), tag) == FactTexts(labels, tag)
  {
    var h1 := Heading("h1", labels.title);
    assert TextsIn([], tag) == [];
    FactsTexts(labels, tag);
    AddHeading([], "h1", labels.title, tag);
    AddTexts([] + NL + [h1], Facts(labels), tag);
    hide TextsIn, Heading, Facts, If;
    assert [] + NL + [h1] + NL + [Facts(labels)] == Intro(labels);
  }

  lemma WithSystemTexts(input: Input, tag: string)
    requires DataTag(tag)
    ensures TextsIn(WithSystem(input), tag) == TextsIn(Intro(input.labels), tag) + SystemTexts(input, tag)
  {
    var intro, system := Intro(input.labels), Heading("h2", input.labels.system);
    TableTexts(input.systemRows, tag);
    AddHeading(intro, "h2", input.labels.system, tag);
    AddTexts(intro + NL + [system], Table(input.systemRows), tag);
    hide TextsIn, Heading, Table, Intro, DataTag, If, RowTexts;
    Regroup(TextsIn(intro, tag), If("h2" == tag, input.labels.system), RowTexts(input.systemRows, tag));
  }

  lemma WithScoreTexts(input: Input, tag: string)
    requires DataTag(tag)
    ensures TextsIn(WithScore(input), tag)
         == TextsIn(WithSystem(input), tag) + HealthTexts(input, tag) + If(tag == "h2", input.labels.checks)
  {
    var body, health := WithSystem(input), Heading("h2", input.labels.healthScore);
    ScoreTexts(input, tag);
    AddHeading(body, "h2", input.labels.healthScore, tag);
    AddTexts(body + NL + [health], Score(input), tag);
    AddHeading(body + NL + [health] + NL + [Score(input)], "h2", input.labels.checks, tag);
    hide TextsIn, Heading, Score, WithSystem, If, DataTag, DASH;
    Regroup(TextsIn(body, tag), If("h2" == tag, input.labels.healthScore), TextsIn([Score(input)], tag));
  }

  lemma HeadTexts(labels: Labels, tag: string)
    requires DataTag(tag)
    ensures TextsIn(Head(labels), tag) == If(tag == "title", labels.title)
  {
    var meta, title, style := [Void("meta", " charset=\"utf-8\"")], Heading("title", labels.title),
        Heading("style", Style());
    HeadingTexts("title", labels.title, tag);
    HeadingTexts("style", Style(), tag);
    assert TextsIn(meta, tag) == [] && TextsIn(NL, tag) == [];
    assert tag != "style";
    hide TextsIn, Heading, Style, DataTag;
    AddTexts(meta, title, tag);
    AddTexts(meta + NL + [title], style, tag);
    TextsConcat(meta + NL + [title] + NL + [style], NL, tag);
  }

  /** The texts of the whole body. */
  lemma BodyTexts(input: Input, tag: string)
    requires DataTag(tag)
    ensures TextsIn(Body(input), tag)
         == FactTexts(input.labels, tag) + SystemTexts(input, tag) + HealthTexts(input, tag)
            + If(tag == "h2", input.labels.checks) + CardsTexts(input.cards, tag)
  {
    IntroTexts(input.labels, tag);
    WithSystemTexts(input, tag);
    WithScoreTexts(input, tag);
    WithCardsTexts(WithScore(input), input.cards, tag);
    assert TextsIn(NL, tag) == [];
    hide TextsIn, WithScore, WithSystem, WithCards, FactTexts, SystemTexts, HealthTexts, CardsTexts, Intro;
    TextsConcat(WithCards(WithScore(input), input.cards), NL, tag);
  }

  /** Every datum and every heading comes back as it was, under its tag and in its order. */
  lemma DataComesBack(input: Input, tag: string)
    requires DataTag(tag)
    ensures TextsIn([Document(input)], tag) == DataTexts(input, tag)
  {
    var head, body := Elem("head", "", Head(input.labels)), Elem("body", "", Body(input));
    assert tag != "head" && tag != "body" && tag != "html";
    hide TextsIn, TextOf, Head, Body, DataTag, FactTexts, SystemTexts, HealthTexts, CardsTexts;
    HeadTexts(input.labels, tag);
    BodyTexts(input, tag);
    OuterTexts(head, tag);
    OuterTexts(body, tag);
    OuterTexts(Document(input), tag);
    TextsConcat([head], [body], tag);
    assert [head] + [body] == [head, body];
  }

  /** An element whose own text is no datum. */
  lemma OuterTexts(n: Node, tag: string)
    requires n.Elem? && n.tag != tag
    ensures TextsIn([n], tag) == TextsIn(n.kids, tag)
  {
    ElemTexts(n, tag);
    hide TextsIn, TextOf;
  }

  /** The color of a status: green for OK, ochre for a warning, red for critical and grey for what was not measured. */
  lemma StatusIsColored(t: Texts, card: CheckCard, r: C.DiagnosticResult)
    requires ShowsResult(t, card, r)
    ensures var kids := CardHeading(card).kids;
            var color := if r.status == C.Fine then "#1a7f37" else if r.status == C.Warning then "#9a6700"
                         else if r.status == C.Critical then "#cf222e" else "#57606a";
            kids != [] && kids[|kids|-1] == Elem("span", " style=\"color:" + color + "\"", Chars(t.status(r.status)))
  {
    hide Chars;
  }

  // -- no datum adds a tag --------------------------------------------------

  lemma SkeletonOfElem(n: Node)
    requires n.Elem?
    ensures Skeleton([n]) == [Elem(n.tag, n.attrs, Skeleton(n.kids))]
  {
  }

  lemma HeadingSkeleton(tag: string, text: string)
    ensures Skeleton([Heading(tag, text)]) == [Elem(tag, "", [])]
  {
    CharsHoldNothing(text, tag);
    SkeletonOfElem(Heading(tag, text));
    hide Chars, Skeleton;
  }

  lemma AddSkeleton(body: seq<Node>, n: Node)
    ensures Skeleton(body + NL + [n]) == Skeleton(body) + Skeleton([n])
  {
    SkeletonConcat(body, NL);
    SkeletonConcat(body + NL, [n]);
    assert Skeleton(NL) == [];
    hide Skeleton;
  }

  function RowSkeleton(): Node { Elem("tr", "", [Elem("th", "", []), Elem("td", "", [])]) }

  lemma SkeletonOfRow(row: (string, string))
    ensures Skeleton([Row(row)]) == [RowSkeleton()]
  {
    var th, td := Heading("th", row.0), Heading("td", row.1);
    HeadingSkeleton("th", row.0);
    HeadingSkeleton("td", row.1);
    SkeletonConcat([th], [td]);
    assert [th] + [td] == [th, td];
    SkeletonOfElem(Row(row));
    hide Skeleton, Chars, Heading;
    assert Skeleton([th, td]) == [Elem("th", "", []), Elem("td", "", [])];
  }

  lemma {:induction false} SameRowsSkeleton(a: seq<(string, string)>, b: seq<(string, string)>)
    requires |a| == |b|
    ensures Skeleton(Rows(a)) == Skeleton(Rows(b))
  {
    if a != [] {
      SameRowsSkeleton(a[1..], b[1..]);
      SkeletonOfRow(a[0]);
      SkeletonOfRow(b[0]);
      SkeletonConcat([Row(a[0])], Rows(a[1..]));
      SkeletonConcat([Row(b[0])], Rows(b[1..]));
      hide Skeleton, Row, RowSkeleton;
    }
  }

  lemma SameTableSkeleton(a: seq<(string, string)>, b: seq<(string, string)>)
    requires |a| == |b|
    ensures Skeleton([Table(a)]) == Skeleton([Table(b)])
  {
    SameRowsSkeleton(a, b);
    SkeletonOfElem(Table(a));
    SkeletonOfElem(Table(b));
    hide Skeleton, Rows;
  }

  lemma FactsSkeleton(labels: Labels)
    ensures Skeleton([Facts(labels)]) == [Elem("p", "", [Void("br", ""), Void("br", "")])]
  {
    var a, b, c, br := Chars(labels.generated), Chars(labels.version), Chars(labels.excluded), [Void("br", "")];
    assert Skeleton(br) == br;
    CharsHoldNothing(labels.generated, "p");
    CharsHoldNothing(labels.version, "p");
    CharsHoldNothing(labels.excluded, "p");
    SkeletonOfElem(Facts(labels));
    hide Skeleton, Chars;
    SkeletonConcat(a, br);
    SkeletonConcat(a + br, b);
    SkeletonConcat(a + br + b, br);
    SkeletonConcat(a + br + b + br, c);
    assert Skeleton(a + br + b + br + c) == [Void("br", ""), Void("br", "")];
  }

  lemma ScoreSkeleton(input: Input)
    ensures Skeleton([Score(input)]) == [Elem("p", "", [Elem("strong", "", [])])]
  {
    var strong, dash, coverage := [Heading("strong", input.scoreText)], Chars(DASH), Chars(input.coverageText);
    HeadingSkeleton("strong", input.scoreText);
    CharsHoldNothing(DASH, "p");
    CharsHoldNothing(input.coverageText, "p");
    SkeletonOfElem(Score(input));
    hide Skeleton, Chars, Heading;
    SkeletonConcat(strong, dash);
    SkeletonConcat(strong + dash, coverage);
    assert Skeleton(strong + dash + coverage) == [Elem("strong", "", [])];
  }

  lemma CardHeadingSkeleton(card: CheckCard)
    ensures Skeleton([CardHeading(card)]) == [Elem("h3", "", [Elem("span", SpanAttrs(card), [])])]
  {
    var title, dash, span := Chars(card.title), Chars(DASH), Elem("span", SpanAttrs(card), Chars(card.statusText));
    CharsHoldNothing(card.title, "p");
    CharsHoldNothing(DASH, "p");
    CharsHoldNothing(card.statusText, "p");
    SkeletonOfElem(CardHeading(card));
    SkeletonOfElem(span);
    hide Skeleton, Chars, Color;
    SkeletonConcat(title, dash);
    SkeletonConcat(title + dash, [span]);
    assert Skeleton(title + dash + [span]) == [Elem("span", SpanAttrs(card), [])];
  }

  /** Two cards that differ in their texts only. */
  predicate SameShape(a: CheckCard, b: CheckCard) {
    |a.evidence| == |b.evidence| && Color(a.statusCss) == Color(b.statusCss)
  }

  lemma WithCardSkeleton(x: seq<Node>, a: CheckCard, y: seq<Node>, b: CheckCard)
    requires SameShape(a, b) && Skeleton(x) == Skeleton(y)
    ensures Skeleton(WithCard(x, a)) == Skeleton(WithCard(y, b))
  {
    CardHeadingSkeleton(a);
    CardHeadingSkeleton(b);
    HeadingSkeleton("p", a.subtitle);
    HeadingSkeleton("p", b.subtitle);
    SameTableSkeleton(a.evidence, b.evidence);
    hide Skeleton, CardHeading, Heading, Table, Color;
    AddSkeleton(x, CardHeading(a));
    AddSkeleton(y, CardHeading(b));
    AddSkeleton(x + NL + [CardHeading(a)], Heading("p", a.subtitle));
    AddSkeleton(y + NL + [CardHeading(b)], Heading("p", b.subtitle));
    AddSkeleton(x + NL + [CardHeading(a)] + NL + [Heading("p", a.subtitle)], Table(a.evidence));
    AddSkeleton(y + NL + [CardHeading(b)] + NL + [Heading("p", b.subtitle)], Table(b.evidence));
  }

  lemma {:induction false} WithCardsSkeleton(x: seq<Node>, a: seq<CheckCard>, y: seq<Node>, b: seq<CheckCard>)
    requires |a| == |b| && (forall i | 0 <= i < |a| :: SameShape(a[i], b[i])) && Skeleton(x) == Skeleton(y)
    ensures Skeleton(WithCards(x, a)) == Skeleton(WithCards(y, b))
  {
    if a != [] {
      var i, j := a[..|a|-1], b[..|b|-1];
      WithCardsSkeleton(x, i, y, j);
      WithCardSkeleton(WithCards(x, i), a[|a|-1], WithCards(y, j), b[|b|-1]);
      hide Skeleton, WithCard, SameShape;
    }
  }

  lemma IntroSkeleton(labels: Labels)
    ensures Skeleton(Intro(labels)) == [Elem("h1", "", []), Elem("p", "", [Void("br", ""), Void("br", "")])]
  {
    var h1 := Heading("h1", labels.title);
    HeadingSkeleton("h1", labels.title);
    FactsSkeleton(labels);
    assert Skeleton([]) == [];
    hide Skeleton, Heading, Facts;
    AddSkeleton([], h1);
    AddSkeleton([] + NL + [h1], Facts(labels));
    assert [] + NL + [h1] + NL + [Facts(labels)] == Intro(labels);
  }

  lemma WithScoreSkeleton(a: Input, b: Input)
    requires |a.systemRows| == |b.systemRows|
    ensures Skeleton(WithScore(a)) == Skeleton(WithScore(b))
  {
    IntroSkeleton(a.labels);
    IntroSkeleton(b.labels);
    SameTableSkeleton(a.systemRows, b.systemRows);
    WithScoreParts(a);
    WithScoreParts(b);
    hide Skeleton, Intro, WithScore, Table;
  }

  lemma WithScoreParts(input: Input)
    ensures Skeleton(WithScore(input))
         == Skeleton(Intro(input.labels))
            + (if input.systemRows == [] then [] else [Elem("h2", "", [])] + Skeleton([Table(input.systemRows)]))
            + [Elem("h2", "", []), Elem("p", "", [Elem("strong", "", [])]), Elem("h2", "", [])]
  {
    var system, health := Heading("h2", input.labels.system), Heading("h2", input.labels.healthScore);
    var checks := Heading("h2", input.labels.checks);
    HeadingSkeleton("h2", input.labels.system);
    HeadingSkeleton("h2", input.labels.healthScore);
    HeadingSkeleton("h2", input.labels.checks);
    ScoreSkeleton(input);
    hide Skeleton, Intro, Heading, Table, Score;
    AddSkeleton(Intro(input.labels), system);
    AddSkeleton(Intro(input.labels) + NL + [system], Table(input.systemRows));
    var body := WithSystem(input);
    AddSkeleton(body, health);
    AddSkeleton(body + NL + [health], Score(input));
    AddSkeleton(body + NL + [health] + NL + [Score(input)], checks);
  }

  lemma HeadSkeleton(labels: Labels)
    ensures Skeleton(Head(labels)) == [Void("meta", " charset=\"utf-8\""), Elem("title", "", []), Elem("style", "", [])]
  {
    var meta, title, style := [Void("meta", " charset=\"utf-8\"")], Heading("title", labels.title),
        Heading("style", Style());
    HeadingSkeleton("title", labels.title);
    HeadingSkeleton("style", Style());
    assert Skeleton(meta) == meta && Skeleton(NL) == [];
    hide Skeleton, Heading, Style;
    AddSkeleton(meta, title);
    AddSkeleton(meta + NL + [title], style);
    SkeletonConcat(meta + NL + [title] + NL + [style], NL);
  }

  lemma DocumentSkeleton(input: Input)
    ensures Skeleton([Document(input)]) ==
              [Elem("html", "", [Elem("head", "", Skeleton(Head(input.labels))),
                                 Elem("body", "", Skeleton(WithCards(WithScore(input), input.cards)))])]
  {
    var head, body := Elem("head", "", Head(input.labels)), Elem("body", "", Body(input));
    var inner := WithCards(WithScore(input), input.cards);
    assert Skeleton(NL) == [];
    SkeletonConcat(inner, NL);
    SkeletonConcat([head], [body]);
    assert [head] + [body] == [head, body];
    SkeletonOfElem(head);
    SkeletonOfElem(body);
    SkeletonOfElem(Document(input));
    hide Skeleton, Head, WithScore, WithCards;
    assert Skeleton(inner + NL) == Skeleton(inner);
    assert Skeleton([head, body])
        == [Elem("head", "", Skeleton(Head(input.labels))), Elem("body", "", Skeleton(inner))];
  }

  /** Two inputs with as many rows and cards and the same colors have the same elements, whatever their texts. */
  lemma NoDatumAddsATag(a: Input, b: Input)
    requires |a.systemRows| == |b.systemRows|
    requires |a.cards| == |b.cards| && forall i | 0 <= i < |a.cards| :: SameShape(a.cards[i], b.cards[i])
    ensures Skeleton([Document(a)]) == Skeleton([Document(b)])
  {
    HeadSkeleton(a.labels);
    HeadSkeleton(b.labels);
    WithScoreSkeleton(a, b);
    WithCardsSkeleton(WithScore(a), a.cards, WithScore(b), b.cards);
    DocumentSkeleton(a);
    DocumentSkeleton(b);
    hide Skeleton, Head, WithScore, WithCards, Document;
  }
}
