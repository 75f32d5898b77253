/**
  HTML as trees: writing a tree with html.escape's escaping, and a strict
  reader that keeps a stack of open elements.  Text is one node per character,
  so a tree has one written form and reading it back is exact.
*/
module Html {
  import opened Common

  datatype Node =
    | Chr(c: char)
    | Void(tag: string, attrs: string)
    | Elem(tag: string, attrs: string, kids: seq<Node>)

  /** The void elements a report uses (section 13.1.2 of the WHATWG HTML Standard). */
  predicate IsVoid(tag: string) { tag == "meta" || tag == "br" }

  /** html.escape of one character; quotes included. */
  function Escape(c: char): string {
    if c == '&' then "&amp;"
    else if c == '<' then "&lt;"
    else if c == '>' then "&gt;"
    else if c == '"' then "&quot;"
    else if c == '\'' then "&#x27;"
    else [c]
  }

  /** The character references of section 13.5 of the WHATWG HTML Standard, and nothing else is escaped. */
  lemma EscapesAreReferences(c: char)
    ensures c as int == 38 <==> Escape(c) == "&amp;"
    ensures c as int == 60 <==> Escape(c) == "&lt;"
    ensures c as int == 62 <==> Escape(c) == "&gt;"
    ensures c as int == 34 <==> Escape(c) == "&quot;"
    ensures c as int == 39 <==> Escape(c) == "&#x27;"
    ensures c as int !in {34, 38, 39, 60, 62} ==> Escape(c) == [c]
  {
  }

  function EscapeText(s: string): string { if s == "" then "" else Escape(s[0]) + EscapeText(s[1..]) }

  function Chars(s: string): seq<Node> { seq(|s|, i requires 0 <= i < |s| => Chr(s[i])) }

  // -- writing --------------------------------------------------------------

  function WriteNode(n: Node): string
    decreases n, 1
  {
    match n
    case Chr(c) => Escape(c)
    case Void(tag, attrs) => "<" + tag + attrs + ">"
    case Elem(tag, attrs, kids) => "<" + tag + attrs + ">" + Write(kids) + "</" + tag + ">"
  }

  function Write(ns: seq<Node>): string
    decreases ns, 0
  {
    if ns == [] then "" else WriteNode(ns[0]) + Write(ns[1..])
  }

  lemma {:induction false} WriteConcat(a: seq<Node>, b: seq<Node>)
    ensures Write(a + b) == Write(a) + Write(b)
  {
    if a == [] {
      assert a + b == b;
    } else {
      assert (a + b)[0] == a[0] && (a + b)[1..] == a[1..] + b;
      WriteConcat(a[1..], b);
    }
  }

  lemma {:induction false} WriteChars(s: string)
    ensures Write(Chars(s)) == EscapeText(s)
  {
    if s != "" {
      assert Chars(s)[1..] == Chars(s[1..]);
      WriteChars(s[1..]);
    }
  }

  lemma WriteOne(n: Node)
    ensures Write([n]) == WriteNode(n)
  {
  }

  // -- reading --------------------------------------------------------------

  function IndexOf(s: string, c: char): (i: nat)
    ensures i <= |s|
    ensures i < |s| ==> s[i] == c
    ensures c !in s[..i]
  {
    if s == "" || s[0] == c then 0 else
      var i := IndexOf(s[1..], c);
      assert s[..i+1] == [s[0]] + s[1..][..i];
      i + 1
  }

  function Decode(entity: string): Option<char> {
    if entity == "&amp" then Some('&')
    else if entity == "&lt" then Some('<')
    else if entity == "&gt" then Some('>')
    else if entity == "&quot" then Some('"')
    else if entity == "&#x27" then Some('\'')
    else None
  }

  /** An element that is still open: its tag, and the siblings read before it. */
  datatype Frame = Frame(tag: string, attrs: string, before: seq<Node>)

  /**
    Reads `s` with `open` elements around it and `done` already read in the innermost one.  An end tag must
    match the innermost open element, and nothing may be open at the end.
  */
  function Read(s: string, open: seq<Frame>, done: seq<Node>): Option<seq<Node>>
    decreases |s|
  {
    if s == "" then (if open == [] then Some(done) else None)
    else if s[0] == '<' then
      var end := IndexOf(s, '>');
      if end == |s| then None
      else
        var inner, rest := s[1..end], s[end+1..];
        if inner != "" && inner[0] == '/' then
          if open == [] then None
          else
            var top := open[|open|-1];
            if top.tag != inner[1..] then None
            else Read(rest, open[..|open|-1], top.before + [Elem(top.tag, top.attrs, done)])
        else
          var space := IndexOf(inner, ' ');
          var tag, attrs := inner[..space], inner[space..];
          if IsVoid(tag) then Read(rest, open, done + [Void(tag, attrs)])
          else Read(rest, open + [Frame(tag, attrs, done)], [])
    else if s[0] == '&' then
      var end := IndexOf(s, ';');
      if end == |s| then None
      else
        match Decode(s[..end])
        case None => None
        case Some(c) => Read(s[end+1..], open, done + [Chr(c)])
    else Read(s[1..], open, done + [Chr(s[0])])
  }

  /** Names and attributes the reader can tell apart. */
  predicate GoodTag(tag: string, attrs: string) {
    && tag != "" && tag[0] != '/' && ' ' !in tag && '>' !in tag
    && (attrs == "" || attrs[0] == ' ') && '>' !in attrs
  }

  ghost predicate Good(ns: seq<Node>)
    decreases ns
  {
    ns != [] ==>
      && (match ns[0]
          case Chr(_) => true
          case Void(tag, attrs) => GoodTag(tag, attrs) && IsVoid(tag)
          case Elem(tag, attrs, kids) => GoodTag(tag, attrs) && !IsVoid(tag) && Good(kids))
      && Good(ns[1..])
  }

  lemma {:induction false} IndexIs(before: string, c: char, rest: string)
    requires c !in before
    ensures IndexOf(before + ([c] + rest), c) == |before|
  {
    var s := before + ([c] + rest);
    if before != "" {
      assert s[1..] == before[1..] + ([c] + rest);
      IndexIs(before[1..], c, rest);
    }
  }

  lemma {:induction false} IndexIsEnd(s: string, c: char)
    requires c !in s
    ensures IndexOf(s, c) == |s|
  {
    if s != "" { IndexIsEnd(s[1..], c); }
  }

  lemma ReadEntity(name: string, c: char, rest: string, open: seq<Frame>, done: seq<Node>)
    requires name != "" && name[0] == '&' && ';' !in name && Decode(name) == Some(c)
    ensures Read(name + (";" + rest), open, done) == Read(rest, open, done + [Chr(c)])
  {
    IndexIs(name, ';', rest);
    var s := name + ([';'] + rest);
    assert s[..|name|] == name && s[|name|+1..] == rest;
    hide Decode, IndexOf;
  }

  lemma ReadChar(c: char, rest: string, open: seq<Frame>, done: seq<Node>)
    ensures Read(Escape(c) + rest, open, done) == Read(rest, open, done + [Chr(c)])
  {
    if c == '&' {
      ReadEntity("&amp", c, rest, open, done);
      assert "&amp;" + rest == "&amp" + (";" + rest);
    } else if c == '<' {
      ReadEntity("&lt", c, rest, open, done);
      assert "&lt;" + rest == "&lt" + (";" + rest);
    } else if c == '>' {
      ReadEntity("&gt", c, rest, open, done);
      assert "&gt;" + rest == "&gt" + (";" + rest);
    } else if c == '"' {
      ReadEntity("&quot", c, rest, open, done);
      assert "&quot;" + rest == "&quot" + (";" + rest);
    } else if c == '\'' {
      ReadEntity("&#x27", c, rest, open, done);
      assert "&#x27;" + rest == "&#x27" + (";" + rest);
    } else {
      assert ([c] + rest)[1..] == rest;
    }
  }

  lemma SplitTag(tag: string, attrs: string)
    requires GoodTag(tag, attrs)
    ensures var space := IndexOf(tag + attrs, ' '); (tag + attrs)[..space] == tag && (tag + attrs)[space..] == attrs
  {
    if attrs == "" {
      assert tag + attrs == tag;
      IndexIsEnd(tag, ' ');
    } else {
      assert attrs == [' '] + attrs[1..];
      IndexIs(tag, ' ', attrs[1..]);
    }
  }

  /** The inside of the first tag and what follows it. */
  lemma FirstTag(inner: string, rest: string)
    requires '>' !in inner
    ensures var s := "<" + inner + ">" + rest;
            s[0] == '<' && IndexOf(s, '>') == |inner| + 1 < |s| && s[1..|inner|+1] == inner && s[|inner|+2..] == rest
  {
    var s := "<" + inner + ">" + rest;
    IndexIs("<" + inner, '>', rest);
    assert s == ("<" + inner) + (['>'] + rest);
  }

  lemma ReadStart(tag: string, attrs: string, rest: string, open: seq<Frame>, done: seq<Node>)
    requires GoodTag(tag, attrs)
    ensures Read("<" + (tag + attrs) + ">" + rest, open, done) ==
              if IsVoid(tag) then Read(rest, open, done + [Void(tag, attrs)])
              else Read(rest, open + [Frame(tag, attrs, done)], [])
  {
    SplitTag(tag, attrs);
    FirstTag(tag + attrs, rest);
    hide IndexOf, IsVoid;
  }

  lemma ReadEnd(tag: string, rest: string, open: seq<Frame>, top: Frame, done: seq<Node>)
    requires '>' !in tag && top.tag == tag
    ensures Read("<" + ("/" + tag) + ">" + rest, open + [top], done)
            == Read(rest, open, top.before + [Elem(tag, top.attrs, done)])
  {
    FirstTag("/" + tag, rest);
    assert (open + [top])[..|open|] == open;
    assert ("/" + tag)[1..] == tag;
    hide IndexOf, IsVoid;
  }

  lemma {:induction false} ReadElem(n: Node, rest: string, open: seq<Frame>, done: seq<Node>)
    requires n.Elem? && Good([n])
    ensures Read(WriteNode(n) + rest, open, done) == Read(rest, open, done + [n])
    decreases n, 1
  {
    var tag, attrs, kids := n.tag, n.attrs, n.kids;
    var end := "<" + ("/" + tag) + ">" + rest;
    assert WriteNode(n) + rest == "<" + (tag + attrs) + ">" + (Write(kids) + end);
    assert Good(kids);
    hide Write, Good;
    ReadStart(tag, attrs, Write(kids) + end, open, done);
    ReadWritten(kids, end, open + [Frame(tag, attrs, done)], []);
    assert [] + kids == kids;
    ReadEnd(tag, rest, open, Frame(tag, attrs, done), kids);
    hide Read, WriteNode;
  }

  lemma WriteFirst(ns: seq<Node>, rest: string)
    requires ns != []
    ensures Write(ns) + rest == WriteNode(ns[0]) + (Write(ns[1..]) + rest)
  {
    hide WriteNode;
  }

  lemma OneByOne(done: seq<Node>, ns: seq<Node>)
    requires ns != []
    ensures done + [ns[0]] + ns[1..] == done + ns
  {
  }

  lemma VoidIsGood(n: Node)
    requires n.Void? && Good([n])
    ensures GoodTag(n.tag, n.attrs) && IsVoid(n.tag)
  {
  }

  lemma VoidIsWritten(n: Node, rest: string)
    requires n.Void?
    ensures WriteNode(n) + rest == "<" + (n.tag + n.attrs) + ">" + rest
  {
  }

  lemma ReadVoid(n: Node, rest: string, open: seq<Frame>, done: seq<Node>)
    requires n.Void? && Good([n])
    ensures Read(WriteNode(n) + rest, open, done) == Read(rest, open, done + [n])
  {
    hide *;
    VoidIsGood(n);
    VoidIsWritten(n, rest);
    ReadStart(n.tag, n.attrs, rest, open, done);
  }

  lemma CharIsWritten(n: Node)
    requires n.Chr?
    ensures WriteNode(n) == Escape(n.c)
  {
  }

  lemma {:induction false} ReadNode(n: Node, rest: string, open: seq<Frame>, done: seq<Node>)
    requires Good([n])
    ensures Read(WriteNode(n) + rest, open, done) == Read(rest, open, done + [n])
    decreases n, 2
  {
    hide *;
    match n
    case Chr(c) =>
      CharIsWritten(n);
      ReadChar(c, rest, open, done);
    case Void(_, _) =>
      ReadVoid(n, rest, open, done);
    case Elem(_, _, _) =>
      ReadElem(n, rest, open, done);
  }

  /** Reading what was written gives it back, in any context. */
  lemma {:induction false} ReadWritten(ns: seq<Node>, rest: string, open: seq<Frame>, done: seq<Node>)
    requires Good(ns)
    ensures Read(Write(ns) + rest, open, done) == Read(rest, open, done + ns)
    decreases ns, 0
  {
    if ns == [] {
      assert Write(ns) + rest == rest && done + ns == done;
      hide *;
    } else {
      assert Good([ns[0]]) && Good(ns[1..]);
      hide *;
      WriteFirst(ns, rest);
      ReadNode(ns[0], Write(ns[1..]) + rest, open, done);
      ReadWritten(ns[1..], rest, open, done + [ns[0]]);
      OneByOne(done, ns);
    }
  }

  /** A written tree reads back as itself. */
  lemma WrittenReadsBack(ns: seq<Node>)
    requires Good(ns)
    ensures Read(Write(ns), [], []) == Some(ns)
  {
    ReadWritten(ns, "", [], []);
    assert Write(ns) + "" == Write(ns) && [] + ns == ns;
  }

  // -- what a tree holds ----------------------------------------------------

  /** The characters of a text, elements aside. */
  function TextOf(ns: seq<Node>): string {
    if ns == [] then "" else (if ns[0].Chr? then [ns[0].c] else "") + TextOf(ns[1..])
  }

  lemma {:induction false} TextOfChars(s: string)
    ensures TextOf(Chars(s)) == s && Good(Chars(s))
  {
    if s != "" {
      assert Chars(s)[1..] == Chars(s[1..]);
      TextOfChars(s[1..]);
      assert s == [s[0]] + s[1..];
    }
  }

  /** The texts of all elements with a tag, in document order. */
  function TextsIn(ns: seq<Node>, tag: string): seq<string>
    decreases ns
  {
    if ns == [] then []
    else (if ns[0].Elem? then (if ns[0].tag == tag then [TextOf(ns[0].kids)] else []) + TextsIn(ns[0].kids, tag)
        else [])
         + TextsIn(ns[1..], tag)
  }

  /** The elements of a tree without its text. */
  function Skeleton(ns: seq<Node>): seq<Node>
    decreases ns
  {
    if ns == [] then []
    else (match ns[0]
          case Chr(_) => []
          case Void(_, _) => [ns[0]]
          case Elem(tag, attrs, kids) => [Elem(tag, attrs, Skeleton(kids))])
         + Skeleton(ns[1..])
  }

  lemma {:induction false} TextsConcat(a: seq<Node>, b: seq<Node>, tag: string)
    ensures TextsIn(a + b, tag) == TextsIn(a, tag) + TextsIn(b, tag)
  {
    if a == [] {
      assert a + b == b;
    } else {
      assert (a + b)[0] == a[0] && (a + b)[1..] == a[1..] + b;
      TextsConcat(a[1..], b, tag);
    }
  }

  lemma FirstSkeleton(ns: seq<Node>)
    requires ns != []
    ensures Skeleton(ns) == Skeleton([ns[0]]) + Skeleton(ns[1..])
  {
    assert [ns[0]][1..] == [];
  }

  lemma AppendAssoc(a: seq<Node>, b: seq<Node>, c: seq<Node>)
    ensures a + b + c == a + (b + c)
  {
  }

  lemma {:induction false} SkeletonConcat(a: seq<Node>, b: seq<Node>)
    ensures Skeleton(a + b) == Skeleton(a) + Skeleton(b)
  {
    if a == [] {
      assert a + b == b;
    } else {
      assert (a + b)[0] == a[0] && (a + b)[1..] == a[1..] + b;
      SkeletonConcat(a[1..], b);
      FirstSkeleton(a);
      FirstSkeleton(a + b);
      hide Skeleton;
      AppendAssoc(Skeleton([a[0]]), Skeleton(a[1..]), Skeleton(b));
    }
  }

  lemma {:induction false} GoodConcat(a: seq<Node>, b: seq<Node>)
    ensures Good(a + b) <==> Good(a) && Good(b)
  {
    if a == [] {
      assert a + b == b;
    } else {
      assert (a + b)[0] == a[0] && (a + b)[1..] == a[1..] + b;
      GoodConcat(a[1..], b);
    }
  }

  lemma {:induction false} CharsHoldNothing(s: string, tag: string)
    ensures TextsIn(Chars(s), tag) == [] && Skeleton(Chars(s)) == []
  {
    if s != "" {
      assert Chars(s)[1..] == Chars(s[1..]);
      CharsHoldNothing(s[1..], tag);
    }
  }
}
