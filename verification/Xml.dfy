/** The listing reader of crates/talon-backend/src/xml.rs: the element scan and
    the entity decoder. */
module Xml {
  import opened Text

  // ----- entities --------------------------------------------------------

  /** `str::replace` with a one-character replacement: every non-overlapping
      occurrence, found from the left. */
  function Replace(s: string, p: string, c: char): string
    requires p != ""
  {
    if s == "" then ""
    else if p <= s then [c] + Replace(s[|p|..], p, c)
    else [s[0]] + Replace(s[1..], p, c)
  }

  /** An entity reference and the character it stands for. */
  datatype Rule = Rule(ref: string, image: char) {
    predicate Valid() {
      2 <= |ref| && ref[0] == '&' && '&' !in ref[1..]
    }
  }

  const LT := Rule("&lt;", '<')
  const GT := Rule("&gt;", '>')
  const QUOT := Rule("&quot;", '"')
  const APOS := Rule("&apos;", '\'')
  const AMP := Rule("&amp;", '&')

  /** The predefined entities of XML 1.0, section 4.6. */
  const PREDEFINED: seq<Rule> := [LT, GT, QUOT, APOS, AMP]

  predicate AllValid(rules: seq<Rule>) {
    forall i :: 0 <= i < |rules| ==> rules[i].Valid()
  }

  /** The first rule whose reference starts `s`. */
  function RuleAt(s: string, rules: seq<Rule>): (r: Option<Rule>)
    ensures r.Some? ==> r.value in rules && r.value.ref <= s
    ensures r.None? ==> forall q :: q in rules ==> !(q.ref <= s)
  {
    if rules == [] then None
    else if rules[0].ref <= s then Some(rules[0])
    else RuleAt(s, rules[1..])
  }

  /** Reference decoder: one pass from the left, expanding the given references and
      never looking again at what it has produced. */
  function Decode(s: string, rules: seq<Rule>): string
    requires AllValid(rules)
    decreases |s|
  {
    if s == "" then ""
    else
      match RuleAt(s, rules)
      case Some(r) => [r.image] + Decode(s[|r.ref|..], rules)
      case None => [s[0]] + Decode(s[1..], rules)
  }

  /** `w` holds nothing that the decoder for `rules` could consume or produce. */
  predicate Inert(w: string, rules: seq<Rule>) {
    '&' !in w && forall i :: 0 <= i < |rules| ==> rules[i].image !in w
  }

  /** Where a reference starts, neither the input nor its decoding starts with inert text. */
  lemma ReferenceIsNotInert(t: string, rules: seq<Rule>, w: string)
    requires AllValid(rules) && Inert(w, rules) && w != "" && t != "" && RuleAt(t, rules).Some?
    ensures !(w <= t) && !(w <= Decode(t, rules))
  {
    hide RuleAt;
    var r := RuleAt(t, rules).value;
    assert Decode(t, rules)[0] == r.image != w[0];
    assert t[0] == r.ref[0] == '&' != w[0];
  }

  lemma DecodeStep(t: string, rules: seq<Rule>)
    requires AllValid(rules)
    ensures t == "" ==> Decode(t, rules) == ""
    ensures t != "" && RuleAt(t, rules).None? ==> Decode(t, rules) == [t[0]] + Decode(t[1..], rules)
    ensures t != "" && RuleAt(t, rules).Some? ==>
              var q := RuleAt(t, rules).value; Decode(t, rules) == [q.image] + Decode(t[|q.ref|..], rules)
  {
    hide RuleAt;
  }

  /** Inert text starts the decoded string exactly when it starts the input. */
  lemma {:induction false} InertPrefix(t: string, rules: seq<Rule>, w: string)
    requires AllValid(rules) && Inert(w, rules)
    ensures w <= Decode(t, rules) <==> w <= t
    ensures w <= t ==> Decode(t, rules) == w + Decode(t[|w|..], rules)
  {
    hide Decode, RuleAt;
    DecodeStep(t, rules);
    if w == "" {
      assert t[0..] == t;
    } else if t != "" {
      if RuleAt(t, rules).Some? {
        ReferenceIsNotInert(t, rules, w);
      } else {
        InertPrefix(t[1..], rules, w[1..]);
        InertHead(t[0], t[1..], Decode(t[1..], rules), w);
        if w <= t {
          assert t[1..][|w[1..]|..] == t[|w|..];
        }
      }
    }
  }

  /** Two texts with the same head start with `w` together if their tails do. */
  lemma InertHead(c: char, a: string, b: string, w: string)
    requires w != "" && (w[1..] <= a <==> w[1..] <= b)
    ensures w <= [c] + a <==> w <= [c] + b
    ensures w <= [c] + a ==> w[0] == c
  {
    PrefixHead(w, [c] + a);
    PrefixHead(w, [c] + b);
  }

  lemma PrefixHead(w: string, t: string)
    requires w != "" && t != ""
    ensures w <= t <==> w[0] == t[0] && w[1..] <= t[1..]
  {
    assert w == [w[0]] + w[1..] && t == [t[0]] + t[1..];
  }

  lemma {:induction false} RuleAtAppend(s: string, rules: seq<Rule>, r: Rule)
    ensures RuleAt(s, rules + [r]) ==
            if RuleAt(s, rules).Some? then RuleAt(s, rules)
            else if r.ref <= s then Some(r)
            else None
  {
    if rules == [] {
    } else {
      RuleAtAppend(s, rules[1..], r);
      assert (rules + [r])[1..] == rules[1..] + [r];
    }
  }

  /** Replacing one more reference in decoded text is decoding it in the same pass,
      provided that no character decoded so far can complete that reference. */
  lemma {:induction false} ReplaceExtendsDecode(s: string, rules: seq<Rule>, r: Rule)
    requires AllValid(rules) && r.Valid()
    requires forall i :: 0 <= i < |rules| ==> rules[i].image !in r.ref
    ensures Replace(Decode(s, rules), r.ref, r.image) == Decode(s, rules + [r])
    decreases |s|
  {
    if s == "" {
    } else {
      var d, w, at := Decode(s, rules), r.ref[1..], RuleAt(s, rules);
      RuleAtAppend(s, rules, r);
      if at.Some? {
        var s' := s[|at.value.ref|..];
        ReplaceExtendsDecode(s', rules, r);
        assert d[0] != r.ref[0];
        assert d[1..] == Decode(s', rules);
      } else {
        InertPrefix(s[1..], rules, w);
        PrefixHead(r.ref, s);
        PrefixHead(r.ref, d);
        assert d[1..] == Decode(s[1..], rules);
        if r.ref <= s {
          assert s[1..][|w|..] == s[|r.ref|..];
          assert d[|r.ref|..] == Decode(s[|r.ref|..], rules);
          ReplaceExtendsDecode(s[|r.ref|..], rules, r);
        } else {
          ReplaceExtendsDecode(s[1..], rules, r);
        }
      }
    }
  }

  lemma {:induction false} DecodeNothing(s: string, rules: seq<Rule>)
    requires AllValid(rules) && (rules == [] || '&' !in s)
    ensures Decode(s, rules) == s
  {
    if s == "" {
    } else {
      DecodeNothing(s[1..], rules);
    }
  }

  /** One whole-string replacement per rule, in order. */
  function ReplaceEach(s: string, rules: seq<Rule>): string
    requires AllValid(rules)
    decreases |rules|
  {
    if rules == [] then s
    else ReplaceEach(Replace(s, rules[0].ref, rules[0].image), rules[1..])
  }

  /** `unescape`: `&lt;`, `&gt;`, `&quot;`, `&apos;`, and `&amp;` last. */
  function Unescape(s: string): string {
    if '&' !in s then s else ReplaceEach(s, PREDEFINED)
  }

  /** No replacement yields a character of a reference that is replaced later. */
  predicate Ordered(rules: seq<Rule>) {
    forall i, j :: 0 <= i < j < |rules| ==> rules[i].image !in rules[j].ref
  }

  /** Successive whole-string replacements are one left-to-right pass, for every ordered
      list of references: no replacement creates or destroys a match of a later one. */
  lemma {:induction false} ReplaceEachIsDecode(s: string, done: seq<Rule>, todo: seq<Rule>)
    requires AllValid(done) && AllValid(todo) && Ordered(done + todo)
    ensures AllValid(done + todo)
    ensures ReplaceEach(Decode(s, done), todo) == Decode(s, done + todo)
    decreases |todo|
  {
    if todo == [] {
      assert done + todo == done;
    } else {
      forall i | 0 <= i < |done|
        ensures done[i].image !in todo[0].ref
      {
        assert (done + todo)[i] == done[i] && (done + todo)[|done|] == todo[0];
      }
      ReplaceExtendsDecode(s, done, todo[0]);
      assert done + todo == (done + [todo[0]]) + todo[1..];
      ReplaceEachIsDecode(s, done + [todo[0]], todo[1..]);
    }
  }

  lemma SinglePass(s: string, rules: seq<Rule>)
    requires AllValid(rules) && Ordered(rules)
    ensures (if '&' !in s then s else ReplaceEach(s, rules)) == Decode(s, rules)
  {
    if '&' !in s {
      DecodeNothing(s, rules);
    } else {
      DecodeNothing(s, []);
      assert [] + rules == rules;
      ReplaceEachIsDecode(s, [], rules);
    }
  }

  lemma LtBeforeTheRest()
    ensures '<' !in GT.ref && '<' !in QUOT.ref && '<' !in APOS.ref && '<' !in AMP.ref
  {
  }

  lemma GtBeforeTheRest()
    ensures '>' !in QUOT.ref && '>' !in APOS.ref && '>' !in AMP.ref
  {
  }

  lemma QuotesBeforeAmp()
    ensures '"' !in APOS.ref && '"' !in AMP.ref && '\'' !in AMP.ref
  {
  }

  lemma PredefinedOrdered()
    ensures Ordered(PREDEFINED)
  {
    LtBeforeTheRest();
    GtBeforeTheRest();
    QuotesBeforeAmp();
    forall i, j | 0 <= i < j < |PREDEFINED|
      ensures PREDEFINED[i].image !in PREDEFINED[j].ref
    {
      assert i in {0, 1, 2, 3} && j in {1, 2, 3, 4};
    }
  }

  /** The five successive replacements of `unescape` are one pass on every string. */
  lemma UnescapeIsSinglePass(s: string)
    ensures Unescape(s) == Decode(s, PREDEFINED)
  {
    hide Decode, ReplaceEach, Ordered;
    PredefinedOrdered();
    SinglePass(s, PREDEFINED);
  }

  /** The entity reference for a character, if it has one. */
  function RefOf(c: char): (r: Option<Rule>)
    ensures r.Some? ==> r.value in PREDEFINED && r.value.image == c
  {
    if c == '<' then Some(LT)
    else if c == '>' then Some(GT)
    else if c == '"' then Some(QUOT)
    else if c == '\'' then Some(APOS)
    else if c == '&' then Some(AMP)
    else None
  }

  /** `t` is an escaped form of `s` (XML 1.0, section 2.4): every `&` is escaped, and any
      other character with a predefined entity may be. */
  predicate IsEscaping(s: string, t: string) {
    if s == "" then t == ""
    else
      || (t != "" && t[0] == s[0] && s[0] != '&' && IsEscaping(s[1..], t[1..]))
      || (var r := RefOf(s[0]);
          r.Some? && r.value.ref <= t && IsEscaping(s[1..], t[|r.value.ref|..]))
  }

  /** Unescaping recovers the text from every escaped form of it. */
  lemma UnescapeUndoesEscaping(s: string, t: string)
    requires IsEscaping(s, t)
    ensures Unescape(t) == s
  {
    UnescapeIsSinglePass(t);
    DecodeUndoesEscaping(s, t);
  }

  lemma DecodePlain(s: string, t: string, rules: seq<Rule>)
    requires AllValid(rules) && s != "" && t != "" && t[0] == s[0] != '&' && Decode(t[1..], rules) == s[1..]
    ensures Decode(t, rules) == s
  {
    HeadTail(s, []);
  }

  lemma DecodeReference(s: string, t: string, rules: seq<Rule>, r: Rule)
    requires AllValid(rules) && s != "" && r.ref <= t && t != "" && RuleAt(t, rules) == Some(r) && r.image == s[0]
    requires Decode(t[|r.ref|..], rules) == s[1..]
    ensures Decode(t, rules) == s
  {
    hide RuleAt;
    HeadTail(s, []);
  }

  lemma {:induction false} DecodeUndoesEscaping(s: string, t: string)
    requires IsEscaping(s, t)
    ensures AllValid(PREDEFINED) && Decode(t, PREDEFINED) == s
  {
    assert AllValid(PREDEFINED) by { PredefinedOrdered(); }
    hide Decode, RuleAt, RefOf, AllValid;
    if s == "" {
      DecodeStep(t, PREDEFINED);
    } else if t != "" && t[0] == s[0] && s[0] != '&' && IsEscaping(s[1..], t[1..]) {
      DecodeUndoesEscaping(s[1..], t[1..]);
      DecodePlain(s, t, PREDEFINED);
    } else {
      var r := RefOf(s[0]).value;
      RuleAtItsRef(r, t);
      DecodeUndoesEscaping(s[1..], t[|r.ref|..]);
      DecodeReference(s, t, PREDEFINED, r);
    }
  }

  lemma RuleAtItsRef(r: Rule, t: string)
    requires r in PREDEFINED && r.ref <= t
    ensures RuleAt(t, PREDEFINED) == Some(r) && t != ""
  {
    var q := RuleAt(t, PREDEFINED).value;
    assert q.ref[1] == t[1] == r.ref[1] && q.ref[2] == t[2] == r.ref[2];
  }

  /** The five references by name. */
  lemma ReferencesAre()
    ensures RefOf('<') == Some(Rule("&lt;", '<')) && RefOf('>') == Some(Rule("&gt;", '>'))
    ensures RefOf('"') == Some(Rule("&quot;", '"')) && RefOf('\'') == Some(Rule("&apos;", '\''))
    ensures RefOf('&') == Some(Rule("&amp;", '&'))
  {
  }

  // ----- the element scan ------------------------------------------------

  function OpenTag(tag: string): (s: string)
    ensures 2 <= |s|
  {
    "<" + tag + ">"
  }

  function CloseTag(tag: string): (s: string)
    ensures 3 <= |s|
  {
    "</" + tag + ">"
  }

  /** The text of every `<tag>…</tag>`, stopping at an unterminated one. */
  function ElementsOf(xml: string, tag: string): seq<string> {
    Between(xml, OpenTag(tag), CloseTag(tag))
  }

  function Between(xml: string, open: string, close: string): seq<string>
    requires open != ""
    decreases |xml|
  {
    match Find(xml, open)
    case None => []
    case Some(start) =>
      var after := xml[start + |open|..];
      match Find(after, close)
      case None => []
      case Some(end) => [after[..end]] + Between(after[end + |close|..], open, close)
  }

  lemma BetweenStep(xml: string, open: string, close: string, after: string, text: string, rest: string)
    requires open != ""
    requires var n := Find(xml, open); n.Some? && after == xml[n.value + |open|..]
    requires var m := Find(after, close);
             m.Some? && text == after[..m.value] && rest == after[m.value + |close|..]
    ensures Between(xml, open, close) == [text] + Between(rest, open, close)
  {
    hide Find;
  }

  lemma BetweenStops(xml: string, open: string, close: string)
    requires open != ""
    requires var n := Find(xml, open); n.Some? ==> Find(xml[n.value + |open|..], close).None?
    ensures Between(xml, open, close) == []
  {
    hide Find;
  }

  /** `elements` (and `blocks`): the scanning loop. */
  method Elements(xml: string, tag: string) returns (out: seq<string>)
    ensures out == ElementsOf(xml, tag)
  {
    var open, close := OpenTag(tag), CloseTag(tag);
    out := Scan(xml, open, close);
  }

  method Scan(xml: string, open: string, close: string) returns (out: seq<string>)
    requires open != ""
    ensures out == Between(xml, open, close)
  {
    hide Find, Between;
    out := [];
    var rest := xml;
    while true
      invariant out + Between(rest, open, close) == Between(xml, open, close)
      decreases |rest|
    {
      var start := Find(rest, open);
      if start.None? {
        BetweenStops(rest, open, close);
        break;
      }
      var after := rest[start.value + |open|..];
      var end := Find(after, close);
      if end.None? {
        BetweenStops(rest, open, close);
        break;
      }
      var text, rest' := after[..end.value], after[end.value + |close|..];
      BetweenStep(rest, open, close, after, text, rest');
      out, rest := out + [text], rest';
    }
  }

  /** `element`: the first one. */
  function ElementOf(xml: string, tag: string): Option<string> {
    var all := ElementsOf(xml, tag);
    if all == [] then None else Some(all[0])
  }

  // ----- documents as token sequences ------------------------------------

  /** A tag with its literal inner text (attributes and self-closing slashes included),
      or character data. */
  datatype Token = Open(tag: string) | Close(tag: string) | Chars(text: string)

  predicate WellFormed(t: Token) {
    match t
    case Open(tag) => '<' !in tag && '>' !in tag && tag != "" && tag[0] != '/'
    case Close(tag) => '<' !in tag && '>' !in tag
    case Chars(text) => '<' !in text
  }

  predicate AllWellFormed(ts: seq<Token>) {
    forall i :: 0 <= i < |ts| ==> WellFormed(ts[i])
  }

  function RenderToken(t: Token): string {
    match t
    case Open(tag) => OpenTag(tag)
    case Close(tag) => CloseTag(tag)
    case Chars(text) => text
  }

  function Render(ts: seq<Token>): string {
    if ts == [] then "" else RenderToken(ts[0]) + Render(ts[1..])
  }

  lemma RenderCons(t: Token, ts: seq<Token>)
    ensures Render([t] + ts) == RenderToken(t) + Render(ts)
  {
    assert ([t] + ts)[1..] == ts;
  }

  lemma {:induction false} RenderAppend(a: seq<Token>, b: seq<Token>)
    ensures Render(a + b) == Render(a) + Render(b)
  {
    if a == [] {
      assert a + b == b;
    } else {
      hide Render, RenderToken;
      var a' := a[1..];
      RenderAppend(a', b);
      HeadTail(a, b);
      RenderCons(a[0], a');
      RenderCons(a[0], a' + b);
      Assoc(RenderToken(a[0]), Render(a'), Render(b));
    }
  }

  /** `<`, then characters other than `<` and `>`, then `>`. */
  predicate TagShape(r: string) {
    && 2 <= |r| && r[0] == '<' && r[|r| - 1] == '>'
    && forall k :: 0 < k < |r| - 1 ==> r[k] != '<' && r[k] != '>'
  }

  lemma TagsHaveTagShape(t: Token)
    requires WellFormed(t) && !t.Chars?
    ensures TagShape(RenderToken(t))
  {
  }

  lemma TagsDoNotOverlap(r: string, rest: string, q: string, j: nat)
    requires TagShape(r) && TagShape(q) && r != q && j < |r|
    ensures !OccursAt(r + rest, q, j)
  {
    if OccursAt(r + rest, q, j) {
      OccursChars(r + rest, q, j);
      OccursHead(r, rest, q, j);
    }
  }

  /** Inside the text of a token, no other tag's text can begin. */
  lemma NoTagInside(t: Token, rest: string, p: Token, j: nat)
    requires WellFormed(t) && WellFormed(p) && !p.Chars? && t != p
    requires j < |RenderToken(t)|
    ensures !OccursAt(RenderToken(t) + rest, RenderToken(p), j)
  {
    var r, q := RenderToken(t), RenderToken(p);
    TagsHaveTagShape(p);
    if t.Chars? {
      if OccursAt(r + rest, q, j) {
        OccursHead(r, rest, q, j);
      }
    } else {
      TagsHaveTagShape(t);
      if r == q { SameTag(t, p); }
      TagsDoNotOverlap(r, rest, q, j);
    }
  }

  lemma OccursHead(r: string, rest: string, q: string, j: nat)
    requires q != "" && j < |r| && OccursAt(r + rest, q, j)
    ensures r[j] == q[0]
    ensures j == 0 && |q| <= |r| ==> q == r[..|q|]
    ensures j == 0 && |r| <= |q| ==> r == q[..|r|]
  {
    OccursChars(r + rest, q, j);
    assert (r + rest)[j + 0] == q[0];
  }

  lemma OccursChars(s: string, p: string, j: nat)
    requires OccursAt(s, p, j)
    ensures forall k :: 0 <= k < |p| ==> s[j + k] == p[k]
  {
    forall k | 0 <= k < |p|
      ensures s[j + k] == p[k]
    {
      assert s[j..][k] == p[k];
    }
  }

  lemma SameTag(t: Token, p: Token)
    requires WellFormed(t) && WellFormed(p) && !p.Chars? && !t.Chars?
    requires RenderToken(t) == RenderToken(p)
    ensures t == p
  {
    var r := RenderToken(t);
    assert t.Open? ==> r[1] == t.tag[0] && r[1..|r| - 1] == t.tag;
    assert p.Open? ==> r[1] == p.tag[0] && r[1..|r| - 1] == p.tag;
    assert t.Close? ==> r[1] == '/' && r[2..|r| - 1] == t.tag;
    assert p.Close? ==> r[1] == '/' && r[2..|r| - 1] == p.tag;
  }

  function IndexOf(ts: seq<Token>, t: Token): (r: Option<nat>)
    ensures r.Some? ==> r.value < |ts| && ts[r.value] == t
  {
    if ts == [] then None
    else if ts[0] == t then Some(0)
    else
      match IndexOf(ts[1..], t)
      case None => None
      case Some(i) => Some(i + 1)
  }

  lemma SkipToken(t: Token, rest: string, p: Token)
    requires WellFormed(t) && WellFormed(p) && !p.Chars? && t != p
    ensures Find(RenderToken(t) + rest, RenderToken(p)) ==
            Shifted(Find(rest, RenderToken(p)), |RenderToken(t)|)
  {
    forall j: nat | j < |RenderToken(t)|
      ensures !OccursAt(RenderToken(t) + rest, RenderToken(p), j)
    {
      NoTagInside(t, rest, p, j);
    }
    FindSkips(RenderToken(t), rest, RenderToken(p));
  }

  lemma FindAtStart(p: string, rest: string)
    ensures Find(p + rest, p) == Some(0)
  {
    assert p <= p + rest;
  }

  lemma FindInNothing(p: string)
    requires p != ""
    ensures Find("", p) == None
  {
  }

  /** The offset in the rendered text of the first token equal to `p`. */
  function OffsetOf(ts: seq<Token>, p: Token): Option<nat> {
    if ts == [] then None
    else if ts[0] == p then Some(0)
    else Shifted(OffsetOf(ts[1..], p), |RenderToken(ts[0])|)
  }

  lemma {:induction false} OffsetIsIndex(ts: seq<Token>, p: Token)
    ensures OffsetOf(ts, p) ==
            if IndexOf(ts, p).None? then None else Some(|Render(ts[..IndexOf(ts, p).value])|)
  {
    hide Render, RenderToken;
    if ts == [] {
    } else if ts[0] == p {
      RenderNothing(ts);
    } else {
      OffsetIsIndex(ts[1..], p);
      var r := IndexOf(ts[1..], p);
      if r.Some? {
        TakeCons(ts, r.value);
        RenderCons(ts[0], ts[1..][..r.value]);
      }
    }
  }

  lemma RenderNothing(ts: seq<Token>)
    ensures Render(ts[..0]) == ""
  {
  }

  /** Searching the text for a tag finds the first token that is that tag. */
  lemma {:induction false} FindIsOffset(ts: seq<Token>, p: Token)
    requires AllWellFormed(ts) && WellFormed(p) && !p.Chars?
    ensures Find(Render(ts), RenderToken(p)) == OffsetOf(ts, p)
  {
    if ts == [] {
      FindInNothing(RenderToken(p));
    } else if ts[0] == p {
      FindAtStart(RenderToken(p), Render(ts[1..]));
    } else {
      SkipToken(ts[0], Render(ts[1..]), p);
      FindIsOffset(ts[1..], p);
    }
  }

  /** The element scan on tokens: the tokens between each opening tag and the next
      closing tag of the same name. */
  function TokenElements(ts: seq<Token>, tag: string): seq<seq<Token>>
    decreases |ts|
  {
    match IndexOf(ts, Open(tag))
    case None => []
    case Some(i) => FromOpened(ts[i + 1..], tag)
  }

  function FromOpened(after: seq<Token>, tag: string): seq<seq<Token>>
    decreases |after|
  {
    match IndexOf(after, Close(tag))
    case None => []
    case Some(j) => [after[..j]] + TokenElements(after[j + 1..], tag)
  }

  function RenderEach(ps: seq<seq<Token>>): (r: seq<string>)
    ensures |r| == |ps|
  {
    if ps == [] then [] else [Render(ps[0])] + RenderEach(ps[1..])
  }

  lemma RenderSplit(ts: seq<Token>, i: nat)
    requires i < |ts|
    ensures Render(ts) == Render(ts[..i]) + RenderToken(ts[i]) + Render(ts[i + 1..])
  {
    assert ts == ts[..i] + ts[i..];
    RenderAppend(ts[..i], ts[i..]);
  }

  /** A tag is found in the text exactly when it is among the tokens, and cutting the
      text there cuts the tokens there. */
  lemma CutAt(ts: seq<Token>, p: Token)
    requires AllWellFormed(ts) && WellFormed(p) && !p.Chars?
    ensures Find(Render(ts), RenderToken(p)).Some? <==> IndexOf(ts, p).Some?
    ensures IndexOf(ts, p).Some? ==>
              var i, n := IndexOf(ts, p).value, Find(Render(ts), RenderToken(p)).value;
              && n + |RenderToken(p)| <= |Render(ts)|
              && Render(ts)[..n] == Render(ts[..i])
              && Render(ts)[n + |RenderToken(p)|..] == Render(ts[i + 1..])
  {
    hide Find, RenderToken, IndexOf, OffsetOf, WellFormed;
    FindIsOffset(ts, p);
    OffsetIsIndex(ts, p);
    if IndexOf(ts, p).Some? {
      RenderSplit(ts, IndexOf(ts, p).value);
    }
  }

  /** An opening tag whose text starts with a name, whatever attributes follow. */
  predicate Opens(t: Token, name: string) {
    t.Open? && name <= t.tag
  }

  predicate IsName(name: string) {
    name != "" && name[0] != '/' && '<' !in name && '>' !in name
  }

  /** Inside the text of a token, a name is only ever opened at its start. */
  lemma OpenedAtStart(t: Token, rest: string, name: string, j: nat)
    requires WellFormed(t) && IsName(name) && j < |RenderToken(t)|
    requires OccursAt(RenderToken(t) + rest, "<" + name, j)
    ensures Opens(t, name)
  {
    var r, p := RenderToken(t), "<" + name;
    OccursHead(r, rest, p, j);
    OccursChars(r + rest, p, j);
    assert !t.Chars?;
    TagsHaveTagShape(t);
    assert j == 0;
    assert p[1] == name[0] && p[1..] == name;
    if |p| < |r| {
      assert r[1] == name[0];
      assert t.Open?;
      assert r[1..|r| - 1] == t.tag;
      assert name == r[1..|p|] == t.tag[..|name|];
    }
  }

  lemma OpensAtStart(t: Token, rest: string, name: string)
    requires Opens(t, name)
    ensures "<" + name <= RenderToken(t) + rest
  {
  }

  /** Searching the text for the start of an opening tag finds one exactly when there is
      one among the tokens. */
  lemma {:induction false} OpeningIsFound(ts: seq<Token>, name: string)
    requires AllWellFormed(ts) && IsName(name)
    ensures Find(Render(ts), "<" + name).Some? <==> exists i :: 0 <= i < |ts| && Opens(ts[i], name)
  {
    hide Opens, IsName, WellFormed, RenderToken;
    if ts == [] {
      FindInNothing("<" + name);
    } else if Opens(ts[0], name) {
      OpensAtStart(ts[0], Render(ts[1..]), name);
    } else {
      var r, rest := RenderToken(ts[0]), Render(ts[1..]);
      forall j: nat | j < |r| ensures !OccursAt(r + rest, "<" + name, j) {
        if OccursAt(r + rest, "<" + name, j) {
          OpenedAtStart(ts[0], rest, name, j);
        }
      }
      FindSkips(r, rest, "<" + name);
      OpeningIsFound(ts[1..], name);
      assert forall i :: 1 <= i < |ts| ==> ts[i] == ts[1..][i - 1];
      assert forall i :: 0 <= i < |ts[1..]| ==> ts[1..][i] == ts[i + 1];
    }
  }

  /** The text scan refines the token scan on every document of well-formed tokens. */
  lemma {:induction false} ElementsAreTokenElements(ts: seq<Token>, tag: string)
    requires AllWellFormed(ts) && WellFormed(Open(tag))
    ensures ElementsOf(Render(ts), tag) == RenderEach(TokenElements(ts, tag))
    decreases |ts|
  {
    hide Find, Render, RenderToken, OpenTag, CloseTag, IndexOf, Between;
    var open, close := RenderToken(Open(tag)), RenderToken(Close(tag));
    TagText(tag);
    CutAt(ts, Open(tag));
    var i := IndexOf(ts, Open(tag));
    if i.Some? {
      var ts' := ts[i.value + 1..];
      CutAt(ts', Close(tag));
      var j := IndexOf(ts', Close(tag));
      if j.Some? {
        var first, last := ts'[..j.value], ts'[j.value + 1..];
        BetweenStep(Render(ts), open, close, Render(ts'), Render(first), Render(last));
        ElementsAreTokenElements(last, tag);
        RenderEachCons(first, TokenElements(last, tag));
      } else {
        BetweenStops(Render(ts), open, close);
      }
    } else {
      BetweenStops(Render(ts), open, close);
    }
  }

  lemma TagText(tag: string)
    ensures RenderToken(Open(tag)) == OpenTag(tag) && RenderToken(Close(tag)) == CloseTag(tag)
  {
  }

  lemma RenderEachCons(p: seq<Token>, ps: seq<seq<Token>>)
    ensures RenderEach([p] + ps) == [Render(p)] + RenderEach(ps)
  {
    assert ([p] + ps)[1..] == ps;
  }
}
