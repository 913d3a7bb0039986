/** Splitting a monitor command line into arguments, some of them quoted. */
module Tokenizer {
  import opened Options
  import opened MonitorText

  const MAX_ARGS := 16
  const BUFFER := 1024

  // What fits into a buffer of this size, with its terminator.
  function Fit(text: string, size: nat): (r: string)
    requires size > 0
    ensures r <= text && |r| == if |text| < size then |text| else size - 1
  {
    if |text| < size then text else text[..size - 1]
  }

  datatype Scan = Done(text: string, rest: string) | Failed

  // The character that follows a backslash stands for.
  function Unescaped(c: char): Option<char> {
    match c
    case 'n' => Some('\n')
    case 'r' => Some('\r')
    case '\\' => Some('\\')
    case '\'' => Some('\'')
    case '\"' => Some('\"')
    case _ => None
  }

  function Prepend(c: char, scan: Scan): Scan {
    match scan
    case Done(text, rest) => Done([c] + text, rest)
    case Failed => Failed
  }

  // The text up to the closing quote; Failed if there is none or an escape is unknown.
  function Unquote(s: string): (r: Scan)
    ensures r.Done? ==> |r.rest| < |s|
  {
    if s == "" then Failed
    else if s[0] == '\"' then Done("", s[1..])
    else if s[0] != '\\' then Prepend(s[0], Unquote(s[1..]))
    else if |s| < 2 || Unescaped(s[1]).None? then Failed
    else Prepend(Unescaped(s[1]).value, Unquote(s[2..]))
  }

  function Bare(s: string): (r: string)
    ensures |r| <= |s| && (s != "" && !IsSpace(s[0]) ==> r != "")
  {
    if s == "" || IsSpace(s[0]) then "" else [s[0]] + Bare(s[1..])
  }

  // One argument, at its full length.
  function Token(s: string): (r: Scan)
    ensures r.Done? ==> |r.rest| < |s|
  {
    var t := SkipSpaces(s);
    Skipped(s);
    if t == "" then Failed
    else if t[0] == '\"' then Unquote(t[1..])
    else Done(Bare(t), t[|Bare(t)|..])
  }

  lemma {:induction false} Skipped(s: string)
    ensures SkipSpaces(s) == "" || !IsSpace(SkipSpaces(s)[0])
    ensures SkipSpaces(SkipSpaces(s)) == SkipSpaces(s)
    decreases |s|
  {
    if s != "" && IsSpace(s[0]) {
      Skipped(s[1..]);
    }
  }

  // All arguments, however many, each cut to the buffer.
  function Arguments(s: string): Option<seq<string>>
    decreases |s|
  {
    if SkipSpaces(s) == "" then Some([]) else
      match Token(s)
      case Failed => None
      case Done(text, rest) =>
        match Arguments(rest)
        case None => None
        case Some(args) => Some([Fit(text, BUFFER)] + args)
  }

  /** What parse_cmdline returns. */
  function Parsed(s: string): Option<seq<string>> {
    var args := Arguments(s);
    if args.Some? && |args.value| <= MAX_ARGS then args else None
  }

  // Command lines as they are written.

  datatype Glyph = Raw(c: char) | Escaped(c: char) {
    predicate Valid() {
      if Raw? then c != '\"' && c != '\\' else c in "\n\r\\\'\""
    }

    function Written(): string {
      if Raw? then [c]
      else ['\\', if c == '\n' then 'n' else if c == '\r' then 'r' else c]
    }
  }

  datatype Item = Quoted(glyphs: seq<Glyph>) | Plain(word: string) {
    // A plain word may contain quotes and backslashes, but not start with a quote.
    predicate Valid() {
      if Quoted? then forall i | 0 <= i < |glyphs| :: glyphs[i].Valid()
      else word != "" && word[0] != '\"' && forall i | 0 <= i < |word| :: !IsSpace(word[i])
    }

    function Written(): string {
      if Quoted? then "\"" + Spelled(glyphs) + "\"" else word
    }

    function Text(): string {
      if Quoted? then Meant(glyphs) else word
    }
  }

  function Spelled(glyphs: seq<Glyph>): string {
    if glyphs == [] then "" else glyphs[0].Written() + Spelled(glyphs[1..])
  }

  function Meant(glyphs: seq<Glyph>): string {
    if glyphs == [] then "" else [glyphs[0].c] + Meant(glyphs[1..])
  }

  datatype Spaced = Spaced(item: Item, gap: string)

  function Line(items: seq<Spaced>): string {
    if items == [] then "" else items[0].item.Written() + (items[0].gap + Line(items[1..]))
  }

  // A plain word needs a gap behind it, a closing quote does not.
  predicate Separated(items: seq<Spaced>) {
    && (forall i | 0 <= i < |items| :: items[i].item.Valid() && Blank(items[i].gap))
    && (forall i | 0 <= i < |items| - 1 :: items[i].item.Plain? ==> items[i].gap != "")
  }

  function Texts(items: seq<Spaced>): (r: seq<string>)
    ensures |r| == |items|
  {
    if items == [] then [] else [Fit(items[0].item.Text(), BUFFER)] + Texts(items[1..])
  }

  lemma EscapeUndone(g: Glyph, s: string)
    requires g.Valid()
    ensures Unquote(g.Written() + s) == Prepend(g.c, Unquote(s))
  {
    assert (g.Written() + s)[|g.Written()|..] == s;
  }

  lemma {:induction false} UnquoteSpelled(glyphs: seq<Glyph>, s: string)
    requires forall i | 0 <= i < |glyphs| :: glyphs[i].Valid()
    ensures Unquote(Spelled(glyphs) + ("\"" + s)) == Done(Meant(glyphs), s)
  {
    hide Unquote, Glyph.Written, Glyph.Valid;
    if glyphs == [] {
      ClosingQuote(s);
      assert Spelled(glyphs) + ("\"" + s) == "\"" + s;
    } else {
      var tail := Spelled(glyphs[1..]) + ("\"" + s);
      EscapeUndone(glyphs[0], tail);
      assert Spelled(glyphs) + ("\"" + s) == glyphs[0].Written() + tail;
      UnquoteSpelled(glyphs[1..], s);
    }
  }

  lemma ClosingQuote(s: string)
    ensures Unquote("\"" + s) == Done("", s)
  {
  }

  lemma {:induction false} BareTaken(word: string, s: string)
    requires forall i | 0 <= i < |word| :: !IsSpace(word[i])
    requires s == "" || IsSpace(s[0])
    ensures Bare(word + s) == word
  {
    hide IsSpace;
    if word != "" {
      assert word + s == [word[0]] + (word[1..] + s);
      BareTaken(word[1..], s);
    } else {
      assert word + s == s;
    }
  }

  lemma TokenWritten(item: Item, s: string)
    requires item.Valid() && (item.Plain? ==> s == "" || IsSpace(s[0]))
    ensures Token(item.Written() + s) == Done(item.Text(), s)
  {
    hide Unquote, Bare, Spelled, Meant;
    var t := item.Written() + s;
    assert SkipSpaces(t) == t;
    match item
    case Quoted(glyphs) =>
      assert t[1..] == Spelled(glyphs) + ("\"" + s);
      UnquoteSpelled(glyphs, s);
    case Plain(word) =>
      BareTaken(word, s);
  }

  // Blanks in front make no difference.
  lemma ArgumentsSkip(s: string)
    ensures Arguments(SkipSpaces(s)) == Arguments(s)
  {
    Skipped(s);
    assert Token(SkipSpaces(s)) == Token(s);
  }

  lemma {:induction false} LineStarts(items: seq<Spaced>)
    requires Separated(items)
    ensures if items == [] then Line(items) == "" else Line(items) != "" && !IsSpace(Line(items)[0])
  {
  }

  /** Every line written with quotes, escapes and gaps is read as what was meant, long arguments being cut. */
  lemma {:induction false} ArgumentsOfLine(items: seq<Spaced>)
    requires Separated(items)
    ensures Arguments(Line(items)) == Some(Texts(items))
  {
    hide IsSpace, Fit, Token, Item.Written, Item.Text, Blank;
    LineStarts(items);
    if items != [] {
      var rest, gap := items[1..], items[0].gap;
      assert Separated(rest);
      ArgumentsOfLine(rest);
      LineStarts(rest);
      FollowedBySpace(gap, Line(rest), items);
      TokenWritten(items[0].item, gap + Line(rest));
      SkipBlank(gap, Line(rest));
      ArgumentsSkip(gap + Line(rest));
      assert SkipSpaces(Line(items)) == Line(items);
    }
  }

  lemma FollowedBySpace(gap: string, rest: string, items: seq<Spaced>)
    requires items != [] && Separated(items) && gap == items[0].gap && rest == Line(items[1..])
    ensures items[0].item.Plain? ==> gap + rest == "" || IsSpace((gap + rest)[0])
  {
  }

  /** The round trip of parse_cmdline. */
  lemma LineParsed(before: string, items: seq<Spaced>)
    requires Blank(before) && Separated(items)
    ensures Parsed(before + Line(items)) == if |items| <= MAX_ARGS then Some(Texts(items)) else None
  {
    hide Line, Texts, Arguments, IsSpace;
    LineStarts(items);
    SkipBlank(before, Line(items));
    ArgumentsSkip(before + Line(items));
    ArgumentsOfLine(items);
  }

  // The other direction: every line that is accepted was written so.

  lemma {:induction false} AcceptedQuoted(s: string) returns (glyphs: seq<Glyph>)
    requires Unquote(s).Done?
    ensures Item.Quoted(glyphs).Valid() && Meant(glyphs) == Unquote(s).text
    ensures s == Spelled(glyphs) + ("\"" + Unquote(s).rest)
    decreases |s|
  {
    hide Unescaped;
    if s[0] == '\"' {
      glyphs := [];
      assert s == "" + ("\"" + s[1..]);
    } else {
      var first := FirstGlyph(s);
      var tail := s[|first.Written()|..];
      hide Unquote, Glyph.Written, Glyph.Valid, Item.Valid, Spelled, Meant;
      var later := AcceptedQuoted(tail);
      glyphs := [first] + later;
      GlyphsCons(first, later);
      assert s == first.Written() + tail;
      Regrouped(first.Written(), Spelled(later), "\"" + Unquote(s).rest);
    }
  }

  lemma GlyphsCons(first: Glyph, later: seq<Glyph>)
    requires first.Valid() && Item.Quoted(later).Valid()
    ensures var all := [first] + later;
            && Item.Quoted(all).Valid() && Meant(all) == [first.c] + Meant(later)
            && Spelled(all) == first.Written() + Spelled(later)
  {
    hide Glyph.Valid, Glyph.Written;
    assert ([first] + later)[1..] == later;
  }

  lemma Regrouped(a: string, b: string, c: string)
    ensures a + (b + c) == a + b + c
  {
  }

  lemma FirstGlyph(s: string) returns (g: Glyph)
    requires Unquote(s).Done? && s[0] != '\"'
    ensures g.Valid() && 0 < |g.Written()| <= |s| && s[..|g.Written()|] == g.Written()
    ensures Unquote(s) == Prepend(g.c, Unquote(s[|g.Written()|..]))
  {
    g := if s[0] == '\\' then Escaped(Unescaped(s[1]).value) else Raw(s[0]);
  }

  lemma {:induction false} BareIs(s: string)
    ensures s == Bare(s) + s[|Bare(s)|..] && (forall i | 0 <= i < |Bare(s)| :: !IsSpace(Bare(s)[i]))
    ensures s[|Bare(s)|..] == "" || IsSpace(s[|Bare(s)|])
  {
    hide IsSpace;
    if s != "" && !IsSpace(s[0]) {
      BareIs(s[1..]);
      assert s == [s[0]] + s[1..];
    }
  }

  lemma AcceptedToken(s: string) returns (item: Item)
    requires Token(s).Done?
    ensures item.Valid() && item.Text() == Token(s).text && SkipSpaces(s) == item.Written() + Token(s).rest
    ensures item.Plain? ==> Token(s).rest == "" || IsSpace(Token(s).rest[0])
  {
    hide Unquote, Bare, Spelled, Meant, Glyph.Valid, IsSpace;
    var t := SkipSpaces(s);
    Skipped(s);
    if t[0] == '\"' {
      var glyphs := AcceptedQuoted(t[1..]);
      item := Quoted(glyphs);
      assert t == "\"" + t[1..];
      assert t == "\"" + Spelled(glyphs) + "\"" + Token(s).rest;
    } else {
      BareIs(t);
      item := Plain(Bare(t));
    }
  }

  /** Every line that is accepted, with as many arguments as it likes, is a row of such items. */
  lemma {:induction false} AcceptedLine(s: string) returns (items: seq<Spaced>)
    requires Arguments(s).Some?
    ensures Separated(items) && s == LeadingBlank(s) + Line(items) && Arguments(s) == Some(Texts(items))
    decreases |s|
  {
    hide Token, Item.Valid, Item.Written, Item.Text, Fit, Blank;
    BlankSkipped(s);
    if SkipSpaces(s) == "" {
      items := [];
    } else {
      var item := AcceptedToken(s);
      var rest := Token(s).rest;
      var later := AcceptedLine(rest);
      BlankSkipped(rest);
      var gap := LeadingBlank(rest);
      items := [Spaced(item, gap)] + later;
      assert items[1..] == later;
      LineStarts(later);
      assert Line(later) != "" && item.Plain? ==> gap != "";
      assert later != [] && item.Plain? ==> gap != "";
      SeparatedCons(item, gap, later);
      assert Line(items) == item.Written() + (gap + Line(later));
      hide Line, Separated;
    }
  }

  lemma SeparatedCons(item: Item, gap: string, later: seq<Spaced>)
    requires item.Valid() && Blank(gap) && Separated(later) && (later != [] && item.Plain? ==> gap != "")
    ensures Separated([Spaced(item, gap)] + later)
  {
    hide Item.Valid, Blank;
  }

  // The ordinary way of writing a list of arguments.

  function Glyphs(text: string): seq<Glyph> {
    seq(|text|, i requires 0 <= i < |text| => GlyphFor(text[i]))
  }

  function GlyphFor(c: char): (g: Glyph)
    ensures g.Valid() && g.c == c
  {
    if c in "\n\r\\\'\"" then Escaped(c) else Raw(c)
  }

  function Items(list: seq<string>): (r: seq<Spaced>)
    ensures |r| == |list|
  {
    if list == [] then [] else [Spaced(Quoted(Glyphs(list[0])), " ")] + Items(list[1..])
  }

  lemma {:induction false} GlyphsMean(text: string)
    ensures Meant(Glyphs(text)) == text && Quoted(Glyphs(text)).Valid()
  {
    hide GlyphFor, Glyph.Valid;
    if text != "" {
      GlyphsMean(text[1..]);
      assert Glyphs(text)[1..] == Glyphs(text[1..]);
    }
  }

  lemma {:induction false} ItemsSeparated(list: seq<string>)
    ensures Separated(Items(list))
  {
    hide Item.Valid, Glyphs;
    if list != [] {
      GlyphsMean(list[0]);
      ItemsSeparated(list[1..]);
      SeparatedCons(Quoted(Glyphs(list[0])), " ", Items(list[1..]));
    }
  }

  lemma {:induction false} ItemsMean(list: seq<string>)
    ensures Texts(Items(list)) == list <==> forall i | 0 <= i < |list| :: |list[i]| < BUFFER
  {
    hide Glyphs, Meant;
    if list != [] {
      GlyphsMean(list[0]);
      ItemsMean(list[1..]);
      assert Items(list)[1..] == Items(list[1..]);
      assert Texts(Items(list)) == [Fit(list[0], BUFFER)] + Texts(Items(list[1..]));
      assert list == [list[0]] + list[1..];
      assert forall i | 1 <= i < |list| :: list[i] == list[1..][i - 1];
    }
  }

  /** Quoting a list and parsing it gives the list back exactly when it is short enough in both ways. */
  lemma QuotedListParsed(list: seq<string>)
    ensures Parsed(Line(Items(list))) == Some(list)
       <==> |list| <= MAX_ARGS && forall i | 0 <= i < |list| :: |list[i]| < BUFFER
  {
    hide Parsed, Line;
    ItemsSeparated(list);
    ItemsMean(list);
    LineParsed("", Items(list));
    assert "" + Line(Items(list)) == Line(Items(list));
  }

  class Parser {
    var p: string

    constructor (line: string)
      ensures p == line
    {
      p := line;
    }

    method SkipBlanks()
      modifies this
      ensures p == SkipSpaces(old(p))
    {
      while p != "" && IsSpace(p[0])
        invariant SkipSpaces(p) == SkipSpaces(old(p))
        decreases |p|
      {
        p := p[1..];
      }
    }

    // The loop over a quoted argument; the opening quote has been read.
    method GetQuoted(buf: array<char>) returns (ok: bool, n: nat)
      requires buf.Length > 0
      modifies this, buf
      ensures ok <==> Unquote(old(p)).Done?
      ensures ok ==> n < buf.Length && Done(buf[..n], p) == Cut(Unquote(old(p)), buf.Length)
    {
      hide Fit, Unescaped;
      n := 0;
      ghost var start, taken := p, "";
      NothingTaken(Unquote(p), buf.Length);
      while p != "" && p[0] != '\"'
        invariant n < buf.Length && buf[..n] == Fit(taken, buf.Length)
        invariant Unquote(start) == PrependAll(taken, Unquote(p))
        decreases |p|
      {
        var c := p[0];
        if c == '\\' {
          if |p| < 2 || Unescaped(p[1]).None? {
            return false, n;
          }
          c := Unescaped(p[1]).value;
          TakeOne(taken, c, Unquote(p[2..]));
          p := p[2..];
        } else {
          TakeOne(taken, c, Unquote(p[1..]));
          p := p[1..];
        }
        n := Store(buf, n, taken, c);
        taken := taken + [c];
      }
      if p == "" {
        return false, n;
      }
      p := p[1..];
      assert taken + "" == taken;
      ok := true;
    }

    // Stores a character while there is room for it and the terminator.
    method Store(buf: array<char>, n: nat, ghost taken: string, c: char) returns (m: nat)
      requires n < buf.Length && buf[..n] == Fit(taken, buf.Length)
      modifies buf
      ensures m < buf.Length && buf[..m] == Fit(taken + [c], buf.Length)
    {
      if n < buf.Length - 1 {
        buf[n] := c;
        m := n + 1;
      } else {
        m := n;
      }
    }

    method GetBare(buf: array<char>) returns (n: nat)
      requires buf.Length > 0
      modifies this, buf
      ensures n < buf.Length && buf[..n] == Fit(Bare(old(p)), buf.Length) && p == old(p)[|Bare(old(p))|..]
    {
      hide Fit, IsSpace;
      n := 0;
      ghost var start, taken := p, "";
      NothingTaken(Failed, buf.Length);
      while p != "" && !IsSpace(p[0])
        invariant n < buf.Length && buf[..n] == Fit(taken, buf.Length)
        invariant start == taken + p && Bare(start) == taken + Bare(p)
        decreases |p|
      {
        n := Store(buf, n, taken, p[0]);
        taken := taken + [p[0]];
        p := p[1..];
      }
      assert taken + "" == taken;
    }

    // get_str
    method GetStr(buf: array<char>) returns (ok: bool, n: nat)
      requires buf.Length > 0
      modifies this, buf
      ensures ok <==> Token(old(p)).Done?
      ensures ok ==> n < buf.Length && Done(buf[..n], p) == Cut(Token(old(p)), buf.Length)
    {
      hide Fit, Unquote, Bare, IsSpace;
      SkipBlanks();
      if p == "" {
        return false, 0;
      }
      if p[0] == '\"' {
        p := p[1..];
        ok, n := GetQuoted(buf);
      } else {
        n := GetBare(buf);
        ok := true;
      }
    }

    // parse_cmdline
    method ParseCmdline(args: array<string>) returns (ok: bool, nb: nat)
      requires args.Length == MAX_ARGS
      modifies this, args
      ensures ok <==> Parsed(old(p)).Some?
      ensures ok ==> nb <= MAX_ARGS && Parsed(old(p)) == Some(args[..nb])
    {
      hide Fit, Token, IsSpace;
      ghost var start := p;
      var buf := new char[BUFFER];
      nb := 0;
      AppendToNothing(Arguments(p));
      assert args[..0] == [];
      while true
        invariant nb <= MAX_ARGS && Arguments(start) == AppendTo(args[..nb], Arguments(p))
        decreases |p|
      {
        ghost var before := p;
        ArgumentsSkip(p);
        SkipBlanks();
        Skipped(before);
        if p == "" {
          break;
        }
        if nb >= MAX_ARGS {
          return false, nb;
        }
        var n;
        ok, n := GetStr(buf);
        if !ok {
          return false, nb;
        }
        ghost var had := args[..nb];
        args[nb] := buf[..n];
        nb := nb + 1;
        assert args[..nb] == had + [buf[..n]];
        AppendOne(had, buf[..n], Arguments(p));
      }
      assert args[..nb] + [] == args[..nb];
      ok := true;
    }
  }

  function Cut(scan: Scan, size: nat): Scan
    requires size > 0
  {
    match scan case Done(text, rest) => Done(Fit(text, size), rest) case Failed => Failed
  }

  function PrependAll(taken: string, scan: Scan): Scan {
    match scan case Done(text, rest) => Done(taken + text, rest) case Failed => Failed
  }

  lemma NothingTaken(scan: Scan, size: nat)
    requires size > 0
    ensures PrependAll("", scan) == scan && Fit("", size) == ""
  {
  }

  lemma TakeOne(taken: string, c: char, scan: Scan)
    ensures PrependAll(taken, Prepend(c, scan)) == PrependAll(taken + [c], scan)
  {
    if scan.Done? {
      assert taken + ([c] + scan.text) == taken + [c] + scan.text;
    }
  }

  function AppendTo(args: seq<string>, more: Option<seq<string>>): Option<seq<string>> {
    match more case Some(list) => Some(args + list) case None => None
  }

  lemma AppendToNothing(more: Option<seq<string>>)
    ensures AppendTo([], more) == more
  {
    if more.Some? {
      assert [] + more.value == more.value;
    }
  }

  lemma AppendOne(args: seq<string>, arg: string, more: Option<seq<string>>)
    ensures AppendTo(args, if more.Some? then Some([arg] + more.value) else None) == AppendTo(args + [arg], more)
  {
    if more.Some? {
      assert args + ([arg] + more.value) == args + [arg] + more.value;
    }
  }
}
