// The property list the installer writes, and a reader of it that follows XML 1.0.
module Plist {
  import opened Common
  import opened GoText

  // ---------------------------------------------------------------------
  // Characters
  // ---------------------------------------------------------------------

  /** Char, section 2.2 of XML 1.0. */
  predicate IsXmlChar(c: char) {
    c == '\t' || c == '\n' || c == '\r' || ' ' <= c <= '\U{D7FF}' || '\U{E000}' <= c <= '\U{FFFD}' || '\U{10000}' <= c
  }

  predicate AllXml(s: string) {
    forall c :: c in s ==> IsXmlChar(c)
  }

  predicate NoReturn(s: string) {
    '\r' !in s
  }

  /** Text that survives any XML reader unchanged. */
  predicate IsClean(s: string) {
    AllXml(s) && NoReturn(s)
  }

  /**
   * End-of-line handling, section 2.11 of XML 1.0: a return, with the newline after it if there is one, reads as a
   * newline.
   */
  function Normalize(s: string): string {
    if s == "" then ""
    else if s[0] != '\r' then [s[0]] + Normalize(s[1..])
    else if |s| > 1 && s[1] == '\n' then "\n" + Normalize(s[2..])
    else "\n" + Normalize(s[1..])
  }

  lemma {:induction false} NormalizeIsIdentityIff(s: string)
    ensures Normalize(s) == s <==> NoReturn(s)
    ensures NoReturn(Normalize(s)) && |Normalize(s)| <= |s|
  {
    if s != "" {
      NormalizeIsIdentityIff(s[1..]);
      if s[0] != '\r' {
        assert s == [s[0]] + s[1..];
        assert Normalize(s)[1..] == Normalize(s[1..]);
      } else if |s| > 1 && s[1] == '\n' {
        NormalizeIsIdentityIff(s[2..]);
      }
    }
  }

  /** Normalize, one character or line end at a time, in front of any text. */
  lemma NormalizeStep(a: string, b: string)
    requires a != ""
    ensures a[0] != '\r' ==> Normalize(a + b) == [a[0]] + Normalize(a[1..] + b)
    ensures |a| > 1 && a[0] == '\r' && a[1] == '\n' ==> Normalize(a + b) == "\n" + Normalize(a[2..] + b)
    ensures a[0] == '\r' && (if |a| > 1 then a[1] != '\n' else b == "" || b[0] != '\n')
            ==> Normalize(a + b) == "\n" + Normalize(a[1..] + b)
  {
    assert (a + b)[1..] == a[1..] + b;
    assert |a| > 1 ==> (a + b)[2..] == a[2..] + b;
    assert |a| == 1 ==> a[1..] + b == b;
  }

  lemma ConcatIsAssociative(x: string, y: string, z: string)
    ensures x + (y + z) == (x + y) + z
  {
  }

  lemma {:induction false} NormalizeConcat(a: string, b: string)
    requires b == "" || b[0] != '\n'
    ensures Normalize(a + b) == Normalize(a) + Normalize(b)
    decreases |a|
  {
    if a == "" {
      assert a + b == b;
    } else {
      NormalizeStep(a, b);
      if a[0] != '\r' {
        NormalizeConcat(a[1..], b);
        ConcatIsAssociative([a[0]], Normalize(a[1..]), Normalize(b));
      } else if |a| > 1 && a[1] == '\n' {
        NormalizeConcat(a[2..], b);
        ConcatIsAssociative("\n", Normalize(a[2..]), Normalize(b));
      } else {
        NormalizeConcat(a[1..], b);
        ConcatIsAssociative("\n", Normalize(a[1..]), Normalize(b));
      }
    }
  }

  lemma {:induction false} NormalizeKeepsXml(s: string)
    ensures AllXml(Normalize(s)) <==> AllXml(s)
    decreases |s|
  {
    if s != "" {
      assert s == [s[0]] + s[1..];
      NormalizeKeepsXml(s[1..]);
      if s[0] == '\r' && |s| > 1 && s[1] == '\n' {
        assert s[1..] == [s[1]] + s[2..];
        NormalizeKeepsXml(s[2..]);
      }
    }
  }

  // ---------------------------------------------------------------------
  // Character data
  // ---------------------------------------------------------------------

  function Entity(c: char): string {
    match c
    case '&' => "&amp;"
    case '<' => "&lt;"
    case '>' => "&gt;"
    case '"' => "&quot;"
    case '\'' => "&apos;"
    case _ => [c]
  }

  function Escape(s: string): string {
    if s == "" then "" else Entity(s[0]) + Escape(s[1..])
  }

  /** xmlEscape. */
  method XmlEscape(src: string) returns (dst: string)
    ensures dst == Escape(src)
  {
    dst := "";
    var i := 0;
    assert src[0..] == src;
    while i < |src|
      invariant 0 <= i <= |src|
      invariant dst + Escape(src[i..]) == Escape(src)
    {
      assert src[i..][1..] == src[i + 1..];
      assert dst + (Entity(src[i]) + Escape(src[i + 1..])) == (dst + Entity(src[i])) + Escape(src[i + 1..]);
      match src[i] {
        case '&' => dst := dst + "&amp;";
        case '<' => dst := dst + "&lt;";
        case '>' => dst := dst + "&gt;";
        case '"' => dst := dst + "&quot;";
        case '\'' => dst := dst + "&apos;";
        case _ => dst := dst + [src[i]];
      }
      i := i + 1;
    }
    assert src[i..] == "";
  }

  /** A reference to a predefined entity, section 4.6 of XML 1.0, at the start of s: the character and its length. */
  function Reference(s: string): Option<(char, nat)> {
    if HasPrefix(s, "&amp;") then Some(('&', 5))
    else if HasPrefix(s, "&lt;") then Some(('<', 4))
    else if HasPrefix(s, "&gt;") then Some(('>', 4))
    else if HasPrefix(s, "&quot;") then Some(('"', 6))
    else if HasPrefix(s, "&apos;") then Some(('\'', 6))
    else None
  }

  /** Reads character data up to the next tag: the text and what follows it. */
  function ReadText(s: string): (r: Option<(string, string)>)
    ensures r.Some? ==> |r.value.1| <= |s|
    decreases |s|
  {
    if s == "" then None
    else if s[0] == '<' then Some(("", s))
    else if s[0] == '&' then
      match Reference(s) {
        case None => None
        case Some((c, n)) =>
          if n > |s| then None
          else
            match ReadText(s[n..])
            case None => None
            case Some((text, rest)) => Some(([c] + text, rest))
      }
    else
      match ReadText(s[1..])
      case None => None
      case Some((text, rest)) => Some(([s[0]] + text, rest))
  }

  lemma ReferenceToEntity(c: char, rest: string)
    requires c in "&<>\"'"
    ensures Reference(Entity(c) + rest) == Some((c, |Entity(c)|))
    ensures (Entity(c) + rest)[|Entity(c)|..] == rest && (Entity(c) + rest)[0] == '&'
  {
    var s := Entity(c) + rest;
    assert HasPrefix(s, Entity(c));
    assert s[1] == Entity(c)[1] && s[2] == Entity(c)[2];
  }

  lemma ReadOneEscaped(c: char, tail: string)
    requires ReadText(tail).Some?
    ensures ReadText(Entity(c) + tail) == Some(([c] + ReadText(tail).value.0, ReadText(tail).value.1))
  {
    hide Reference;
    if c in "&<>\"'" {
      ReferenceToEntity(c, tail);
    } else {
      assert ([c] + tail)[1..] == tail;
    }
  }

  lemma EscapeStep(v: string, rest: string)
    ensures v == "" ==> Escape(v) + rest == rest
    ensures v != "" ==> Escape(v) + rest == Entity(v[0]) + (Escape(v[1..]) + rest)
  {
    hide Entity;
  }

  lemma ReadToTag(rest: string)
    requires rest != "" && rest[0] == '<'
    ensures ReadText(rest) == Some(("", rest))
  {
  }

  /** Reading what was escaped gives it back. */
  lemma {:induction false} ReadEscaped(v: string, rest: string)
    requires rest != "" && rest[0] == '<'
    ensures ReadText(Escape(v) + rest) == Some((v, rest))
  {
    hide Entity, ReadText, Escape;
    EscapeStep(v, rest);
    if v == "" {
      ReadToTag(rest);
    } else {
      ReadEscaped(v[1..], rest);
      ReadOneEscaped(v[0], Escape(v[1..]) + rest);
      assert v == [v[0]] + v[1..];
    }
  }

  lemma {:induction false} EscapeKeepsXml(s: string)
    ensures AllXml(Escape(s)) <==> AllXml(s)
  {
    if s != "" {
      assert s == [s[0]] + s[1..];
      EscapeKeepsXml(s[1..]);
      EntityIsXml(s[0]);
      AllXmlConcat(Entity(s[0]), Escape(s[1..]));
      AllXmlConcat([s[0]], s[1..]);
    }
  }

  lemma EntityIsXml(c: char)
    ensures AllXml(Entity(c)) <==> IsXmlChar(c)
    ensures c != '\r' ==> NoReturn(Entity(c))
    ensures Entity(c) != "" && (Entity(c)[0] == '\n' <==> c == '\n')
  {
  }

  lemma AllXmlConcat(a: string, b: string)
    ensures AllXml(a + b) <==> AllXml(a) && AllXml(b)
  {
    forall c | c in a || c in b ensures c in a + b {}
  }

  /** Line ends are normalised inside the text only. */
  lemma {:induction false} NormalizeEscape(s: string)
    ensures Normalize(Escape(s)) == Escape(Normalize(s))
    ensures s == "" || (Escape(s) != "" && (Escape(s)[0] == '\n' <==> s[0] == '\n'))
    decreases |s|
  {
    if s != "" {
      EntityIsXml(s[0]);
      NormalizeEscape(s[1..]);
      if s[0] != '\r' {
        NormalizeTail(Entity(s[0]), Escape(s[1..]));
        assert ([s[0]] + Normalize(s[1..]))[1..] == Normalize(s[1..]);
      } else {
        var e := Escape(s[1..]);
        assert Escape(s) == "\r" + e && ("\r" + e)[1..] == e;
        if |s| > 1 && s[1] == '\n' {
          NormalizeEscape(s[2..]);
          assert s[1..][1..] == s[2..];
          assert e == "\n" + Escape(s[2..]);
          assert ("\r" + e)[2..] == Escape(s[2..]);
          assert ("\n" + Normalize(s[2..]))[1..] == Normalize(s[2..]);
        } else {
          assert ("\n" + Normalize(s[1..]))[1..] == Normalize(s[1..]);
        }
      }
    }
  }

  /** Text without returns in front changes nothing. */
  lemma {:induction false} NormalizeTail(a: string, b: string)
    requires NoReturn(a)
    ensures Normalize(a + b) == a + Normalize(b)
    decreases |a|
  {
    if a == "" {
      assert a + b == b;
    } else {
      assert (a + b)[1..] == a[1..] + b && a == [a[0]] + a[1..];
      NormalizeTail(a[1..], b);
      assert [a[0]] + (a[1..] + Normalize(b)) == a + Normalize(b);
    }
  }

  // ---------------------------------------------------------------------
  // The document
  // ---------------------------------------------------------------------

  // What launchd needs of the document: the arguments and the two log paths.
  datatype Job = Job(args: seq<string>, out: string, err: string)

  function XmlDeclaration(): string {
    "<?xml version=\"1.0\" " + "encoding=\"UTF-8\"?>\n"
  }

  function Doctype(): string {
    "<!DOCTYPE plist PUBLIC " + "\"-//Apple//DTD PLIST " + "1.0//EN\" " + "\"http://www.apple.com/"
        + "DTDs/PropertyList-1.0.dtd\">\n"
  }

  function Opening(): string {
    "<plist version=\"1.0\"><dict>\n"
  }

  function Label(): string {
    "<key>Label</key><string>" + "dev.spectra-remote.agent" + "</string>\n\n"
  }

  function ArgumentsKey(): string {
    "<key>ProgramArguments</key>" + "<array>\n"
  }

  function Flags(): string {
    "</array>\n<key>RunAtLoad</key>" + "<true/>\n<key>KeepAlive</key>" + "<true/>\n"
  }

  function OutKey(): string {
    "<key>StandardOutPath</key>"
  }

  function ErrKey(): string {
    "\n<key>StandardErrorPath</key>"
  }

  function Closing(): string {
    "\n</dict></plist>\n"
  }

  function Element(v: string): string {
    "<string>" + Escape(v) + "</string>\n"
  }

  function Items(vs: seq<string>): string {
    if vs == [] then "" else Element(vs[0]) + Items(vs[1..])
  }

  function Prologue(): string {
    XmlDeclaration() + Doctype() + Opening() + Label() + ArgumentsKey()
  }

  function Epilogue(out: string, err: string): string {
    Flags() + (OutKey() + (Element(out) + (ErrKey() + (Element(err) + Closing()))))
  }

  function Document(job: Job): string {
    Prologue() + (Items(job.args) + Epilogue(job.out, job.err))
  }

  method WriteXmlString(b: string, value: string) returns (r: string)
    ensures r == b + Element(value)
  {
    var escaped := XmlEscape(value);
    r := b + "<string>" + escaped + "</string>\n";
  }

  /** The printing half of Plist. */
  method WriteDocument(args: seq<string>, out: string, err: string) returns (b: string)
    ensures b == Document(Job(args, out, err))
  {
    hide XmlDeclaration, Doctype, Opening, Label, ArgumentsKey, Flags, OutKey, ErrKey, Closing, Element;
    b := XmlDeclaration() + Doctype() + Opening() + Label() + ArgumentsKey();
    b := WriteItems(b, args);
    assert b == Prologue() + Items(args);
    hide Prologue, Items;
    b := b + Flags() + OutKey();
    b := WriteXmlString(b, out);
    b := b + ErrKey();
    b := WriteXmlString(b, err);
    b := b + Closing();
  }

  method WriteItems(start: string, args: seq<string>) returns (b: string)
    ensures b == start + Items(args)
  {
    hide Element;
    b := start;
    var i := 0;
    assert args[0..] == args;
    while i < |args|
      invariant 0 <= i <= |args|
      invariant b + Items(args[i..]) == start + Items(args)
    {
      assert args[i..][1..] == args[i + 1..];
      assert b + (Element(args[i]) + Items(args[i + 1..])) == (b + Element(args[i])) + Items(args[i + 1..]);
      b := WriteXmlString(b, args[i]);
      i := i + 1;
    }
  }

  // ---------------------------------------------------------------------
  // Reading it
  // ---------------------------------------------------------------------

  function Expect(s: string, token: string): (r: Option<string>)
    ensures r.Some? ==> |r.value| + |token| == |s|
  {
    if HasPrefix(s, token) then Some(s[|token|..]) else None
  }

  function ReadElement(s: string): (r: Option<(string, string)>)
    ensures r.Some? ==> |r.value.1| < |s|
  {
    var t := Expect(s, "<string>");
    if t.None? then None
    else
      var text := ReadText(t.value);
      if text.None? then None
      else
        var rest := Expect(text.value.1, "</string>\n");
        if rest.None? then None else Some((text.value.0, rest.value))
  }

  function ReadItems(s: string): Option<(seq<string>, string)>
    decreases |s|
  {
    if HasPrefix(s, "</array>") then Some(([], s))
    else
      match ReadElement(s)
      case None => None
      case Some((v, rest)) =>
        match ReadItems(rest)
        case None => None
        case Some((vs, end)) => Some(([v] + vs, end))
  }

  function ReadPaths(s: string): Option<(string, string)> {
    var a := Expect(s, Flags() + OutKey());
    if a.None? then None
    else
      var out := ReadElement(a.value);
      if out.None? then None
      else
        var b := Expect(out.value.1, ErrKey());
        if b.None? then None
        else
          var err := ReadElement(b.value);
          if err.None? || err.value.1 != Closing() then None else Some((out.value.0, err.value.0))
  }

  /** What a reader gets from a document of this layout: line ends first, then characters, then markup. */
  function ReadJob(doc: string): Option<Job> {
    var text := Normalize(doc);
    var body := Expect(text, Prologue());
    if !AllXml(text) || body.None? then None
    else
      match ReadItems(body.value)
      case None => None
      case Some((args, rest)) =>
        match ReadPaths(rest)
        case None => None
        case Some((out, err)) => Some(Job(args, out, err))
  }

  // ---------------------------------------------------------------------
  // The round trip
  // ---------------------------------------------------------------------

  predicate JobIsXml(job: Job) {
    (forall a :: a in job.args ==> AllXml(a)) && AllXml(job.out) && AllXml(job.err)
  }

  predicate JobIsClean(job: Job) {
    (forall a :: a in job.args ==> IsClean(a)) && IsClean(job.out) && IsClean(job.err)
  }

  function NormalizeAll(vs: seq<string>): (r: seq<string>)
    ensures |r| == |vs|
    ensures forall i :: 0 <= i < |vs| ==> r[i] == Normalize(vs[i])
  {
    seq(|vs|, i requires 0 <= i < |vs| => Normalize(vs[i]))
  }

  function NormalizeJob(job: Job): Job {
    Job(NormalizeAll(job.args), Normalize(job.out), Normalize(job.err))
  }

  lemma ExpectSkips(token: string, rest: string)
    ensures Expect(token + rest, token) == Some(rest)
  {
    assert (token + rest)[|token|..] == rest;
  }

  lemma ReadElementBack(v: string, rest: string)
    ensures ReadElement(Element(v) + rest) == Some((v, rest))
  {
    var close := "</string>\n" + rest;
    assert Element(v) + rest == "<string>" + (Escape(v) + close);
    ExpectSkips("<string>", Escape(v) + close);
    ReadEscaped(v, close);
    ExpectSkips("</string>\n", rest);
  }

  lemma ElementIsNoEnd(v: string, rest: string)
    ensures !HasPrefix(Element(v) + rest, "</array>")
  {
    assert (Element(v) + rest)[1] == 's' && "</array>"[1] == '/';
  }

  lemma {:induction false} ReadItemsBack(vs: seq<string>, rest: string)
    requires HasPrefix(rest, "</array>")
    ensures ReadItems(Items(vs) + rest) == Some((vs, rest))
  {
    hide Element, ReadElement;
    if vs == [] {
      assert Items(vs) + rest == rest;
    } else {
      var tail := Items(vs[1..]) + rest;
      ReadItemsBack(vs[1..], rest);
      assert Items(vs) + rest == Element(vs[0]) + tail;
      ReadElementBack(vs[0], tail);
      ElementIsNoEnd(vs[0], tail);
      assert vs == [vs[0]] + vs[1..];
    }
  }

  lemma ReadPathsBack(out: string, err: string)
    ensures ReadPaths(Epilogue(out, err)) == Some((out, err))
  {
    hide Prologue, Flags, OutKey, ErrKey, Closing;
    var afterOut := ErrKey() + (Element(err) + Closing());
    assert Epilogue(out, err) == (Flags() + OutKey()) + (Element(out) + afterOut);
    ExpectSkips(Flags() + OutKey(), Element(out) + afterOut);
    ReadElementBack(out, afterOut);
    ExpectSkips(ErrKey(), Element(err) + Closing());
    ReadElementBack(err, Closing());
  }

  lemma NormalizeElement(v: string, rest: string)
    ensures Normalize(Element(v) + rest) == Element(Normalize(v)) + Normalize(rest)
  {
    var close := "</string>\n" + rest;
    assert Element(v) + rest == "<string>" + (Escape(v) + close);
    NormalizeTail("<string>", Escape(v) + close);
    NormalizeConcat(Escape(v), close);
    NormalizeEscape(v);
    NormalizeTail("</string>\n", rest);
    assert "<string>" + (Escape(Normalize(v)) + ("</string>\n" + Normalize(rest))) == Element(Normalize(v))
        + Normalize(rest);
  }

  lemma {:induction false} NormalizeItems(vs: seq<string>, rest: string)
    ensures Normalize(Items(vs) + rest) == Items(NormalizeAll(vs)) + Normalize(rest)
  {
    hide Element, Normalize;
    if vs == [] {
      assert Items(vs) + rest == rest;
    } else {
      var tail := Items(vs[1..]) + rest;
      assert Items(vs) + rest == Element(vs[0]) + tail;
      NormalizeElement(vs[0], tail);
      NormalizeItems(vs[1..], rest);
      assert NormalizeAll(vs)[1..] == NormalizeAll(vs[1..]);
      assert Element(Normalize(vs[0])) + (Items(NormalizeAll(vs[1..])) + Normalize(rest)) == Items(NormalizeAll(vs))
          + Normalize(rest);
    }
  }

  lemma ConcatIsClean(a: string, b: string)
    ensures IsClean(a + b) <==> IsClean(a) && IsClean(b)
  {
    AllXmlConcat(a, b);
    assert '\r' in b ==> '\r' in a + b;
  }

  lemma DeclarationIsClean()
    ensures IsClean(XmlDeclaration())
  {
    ConcatIsClean("<?xml version=\"1.0\" ", "encoding=\"UTF-8\"?>\n");
  }

  lemma PublicWordsAreClean()
    ensures IsClean("<!DOCTYPE plist PUBLIC ") && IsClean("\"-//Apple//DTD PLIST ") && IsClean("1.0//EN\" ")
  {
  }

  lemma PublicIsClean()
    ensures IsClean("<!DOCTYPE plist PUBLIC " + "\"-//Apple//DTD PLIST " + "1.0//EN\" ")
  {
    hide IsClean;
    PublicWordsAreClean();
    ConcatIsClean("<!DOCTYPE plist PUBLIC ", "\"-//Apple//DTD PLIST ");
    ConcatIsClean("<!DOCTYPE plist PUBLIC " + "\"-//Apple//DTD PLIST ", "1.0//EN\" ");
  }

  lemma SystemHostIsClean()
    ensures IsClean("\"http://www.apple.com/")
  {
  }

  lemma SystemPathIsClean()
    ensures IsClean("DTDs/PropertyList-1.0.dtd\">\n")
  {
  }

  lemma DoctypeIsClean()
    ensures IsClean(Doctype())
  {
    hide IsClean;
    PublicIsClean();
    SystemHostIsClean();
    SystemPathIsClean();
    var public := "<!DOCTYPE plist PUBLIC " + "\"-//Apple//DTD PLIST " + "1.0//EN\" ";
    ConcatIsClean(public, "\"http://www.apple.com/");
    ConcatIsClean(public + "\"http://www.apple.com/", "DTDs/PropertyList-1.0.dtd\">\n");
  }

  lemma LabelStartIsClean()
    ensures IsClean("<key>Label</key><string>")
  {
  }

  lemma LabelNameIsClean()
    ensures IsClean("dev.spectra-remote.agent") && IsClean("</string>\n\n")
  {
  }

  lemma LabelIsClean()
    ensures IsClean(Label())
  {
    hide IsClean;
    LabelStartIsClean();
    LabelNameIsClean();
    ConcatIsClean("<key>Label</key><string>", "dev.spectra-remote.agent");
    ConcatIsClean("<key>Label</key><string>" + "dev.spectra-remote.agent", "</string>\n\n");
  }

  lemma ArgumentsKeyIsClean()
    ensures IsClean(ArgumentsKey())
  {
    ConcatIsClean("<key>ProgramArguments</key>", "<array>\n");
  }

  lemma OpeningIsClean()
    ensures IsClean(Opening())
  {
  }

  lemma PrologueIsClean()
    ensures IsClean(Prologue())
  {
    hide XmlDeclaration, Doctype, Opening, Label, ArgumentsKey;
    DeclarationIsClean();
    DoctypeIsClean();
    OpeningIsClean();
    LabelIsClean();
    ArgumentsKeyIsClean();
    ConcatIsClean(XmlDeclaration(), Doctype());
    ConcatIsClean(XmlDeclaration() + Doctype(), Opening());
    ConcatIsClean(XmlDeclaration() + Doctype() + Opening(), Label());
    ConcatIsClean(XmlDeclaration() + Doctype() + Opening() + Label(), ArgumentsKey());
  }

  lemma RunAtLoadIsClean()
    ensures IsClean("</array>\n<key>RunAtLoad</key>")
  {
  }

  lemma KeepAliveIsClean()
    ensures IsClean("<true/>\n<key>KeepAlive</key>") && IsClean("<true/>\n")
  {
  }

  lemma FlagsAreClean()
    ensures IsClean(Flags())
  {
    hide IsClean;
    RunAtLoadIsClean();
    KeepAliveIsClean();
    ConcatIsClean("</array>\n<key>RunAtLoad</key>", "<true/>\n<key>KeepAlive</key>");
    ConcatIsClean("</array>\n<key>RunAtLoad</key>" + "<true/>\n<key>KeepAlive</key>", "<true/>\n");
  }

  lemma OutKeyIsClean()
    ensures IsClean(OutKey())
  {
  }

  lemma ErrKeyIsClean()
    ensures IsClean(ErrKey())
  {
  }

  lemma ClosingIsClean()
    ensures IsClean(Closing())
  {
  }

  lemma KeysAreClean()
    ensures IsClean(Flags()) && IsClean(OutKey()) && IsClean(ErrKey()) && IsClean(Closing())
  {
    hide Flags, OutKey, ErrKey, Closing;
    FlagsAreClean();
    OutKeyIsClean();
    ErrKeyIsClean();
    ClosingIsClean();
  }

  lemma FlagsStart()
    ensures HasPrefix(Flags(), "</array>")
  {
    assert Flags()[..8] == "</array>";
  }

  lemma NormalizeDocument(job: Job)
    ensures Normalize(Document(job)) == Document(NormalizeJob(job))
  {
    hide Prologue, Flags, OutKey, ErrKey, Closing;
    PrologueIsClean();
    KeysAreClean();
    NormalizeTail(Prologue(), Items(job.args) + Epilogue(job.out, job.err));
    NormalizeItems(job.args, Epilogue(job.out, job.err));
    NormalizeTail(Flags(), OutKey() + (Element(job.out) + (ErrKey() + (Element(job.err) + Closing()))));
    NormalizeTail(OutKey(), Element(job.out) + (ErrKey() + (Element(job.err) + Closing())));
    NormalizeElement(job.out, ErrKey() + (Element(job.err) + Closing()));
    NormalizeTail(ErrKey(), Element(job.err) + Closing());
    NormalizeElement(job.err, Closing());
    NormalizeIsIdentityIff(Closing());
  }

  lemma ElementIsXml(v: string)
    ensures AllXml(Element(v)) <==> AllXml(v)
  {
    EscapeKeepsXml(v);
    AllXmlConcat("<string>", Escape(v));
    AllXmlConcat("<string>" + Escape(v), "</string>\n");
  }

  lemma {:induction false} ItemsAreXml(vs: seq<string>)
    ensures AllXml(Items(vs)) <==> forall v :: v in vs ==> AllXml(v)
  {
    if vs != [] {
      ElementIsXml(vs[0]);
      ItemsAreXml(vs[1..]);
      AllXmlConcat(Element(vs[0]), Items(vs[1..]));
      assert vs == [vs[0]] + vs[1..];
    }
  }

  lemma DocumentIsXml(job: Job)
    ensures AllXml(Document(job)) <==> JobIsXml(job)
  {
    hide Prologue, Flags, OutKey, ErrKey, Closing;
    PrologueIsClean();
    KeysAreClean();
    ItemsAreXml(job.args);
    ElementIsXml(job.out);
    ElementIsXml(job.err);
    AllXmlConcat(Element(job.err), Closing());
    AllXmlConcat(ErrKey(), Element(job.err) + Closing());
    AllXmlConcat(Element(job.out), ErrKey() + (Element(job.err) + Closing()));
    AllXmlConcat(OutKey(), Element(job.out) + (ErrKey() + (Element(job.err) + Closing())));
    AllXmlConcat(Flags(), OutKey() + (Element(job.out) + (ErrKey() + (Element(job.err) + Closing()))));
    AllXmlConcat(Items(job.args), Epilogue(job.out, job.err));
    AllXmlConcat(Prologue(), Items(job.args) + Epilogue(job.out, job.err));
  }

  /**
   * Every document reads back as its job with line ends normalised, or not at all when a character is no XML
   * character.
   */
  lemma DocumentReadsAs(job: Job)
    ensures ReadJob(Document(job)) == if JobIsXml(job) then Some(NormalizeJob(job)) else None
  {
    hide Prologue, Flags, OutKey, ErrKey, Closing;
    var n := NormalizeJob(job);
    NormalizeDocument(job);
    DocumentIsXml(n);
    NormalizeKeepsXml(job.out);
    NormalizeKeepsXml(job.err);
    forall i | 0 <= i < |job.args| ensures AllXml(n.args[i]) <==> AllXml(job.args[i]) {
      NormalizeKeepsXml(job.args[i]);
    }
    assert JobIsXml(n) <==> JobIsXml(job) by {
      assert forall i :: 0 <= i < |job.args| ==> job.args[i] in job.args && n.args[i] in n.args;
    }
    ExpectSkips(Prologue(), Items(n.args) + Epilogue(n.out, n.err));
    FlagsStart();
    ReadItemsBack(n.args, Epilogue(n.out, n.err));
    ReadPathsBack(n.out, n.err);
  }

  /** The document gives the job back exactly when its text has XML characters only and no carriage return. */
  lemma RoundTripIffClean(job: Job)
    ensures ReadJob(Document(job)) == Some(job) <==> JobIsClean(job)
  {
    hide Prologue, Flags, OutKey, ErrKey, Closing;
    DocumentReadsAs(job);
    NormalizeIsIdentityIff(job.out);
    NormalizeIsIdentityIff(job.err);
    forall i | 0 <= i < |job.args| ensures NormalizeAll(job.args)[i] == job.args[i] <==> NoReturn(job.args[i]) {
      NormalizeIsIdentityIff(job.args[i]);
    }
    assert NormalizeAll(job.args) == job.args <==> forall i :: 0 <= i < |job.args| ==> NoReturn(job.args[i]);
    assert (forall a :: a in job.args ==> NoReturn(a)) <==> forall i :: 0 <= i < |job.args| ==> NoReturn(job.args[i]);
  }
}
