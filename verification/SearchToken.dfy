/** The text that names a search request in the first-page cache. */
module SearchToken {
  import opened Collections

  /** Peers and documents are numbered in 64 bits. */
  type Id = n: nat | n < ID_LIMIT

  const ID_LIMIT := 0x1_0000_0000_0000_0000

  /** A reaction is a text, usually an emoji, or a document. */
  datatype Tag = Text(text: string) | Document(id: Id)

  /** The text that stands for the paid reaction. */
  const PAID := "*"

  /** `custom()`: the document, or 0. */
  function CustomId(t: Tag): Id { if t.Document? then t.id else 0 }

  /** `emoji()`: the text, but nothing for a document or the paid reaction. */
  function EmojiText(t: Tag): string { if t.Text? && t.text != PAID then t.text else "" }

  /** A tag of which the token shows nothing: the empty text, the paid one, document 0. */
  predicate Blank(t: Tag) { CustomId(t) == 0 && EmojiText(t) == "" }

  /** `from` is the id of a peer, `tags` are reactions. */
  datatype Request = Request(query: string, from: Option<Id>, tags: seq<Tag>)

  function Digit(d: nat): char
    requires d < 10
  {
    (48 + d) as char
  }

  predicate AllDigits(s: string) { forall i :: 0 <= i < |s| ==> '0' <= s[i] <= '9' }

  /** `QString::number`. */
  function Number(n: nat): (s: string)
    ensures s != "" && AllDigits(s)
  {
    if n < 10 then [Digit(n)] else Number(n / 10) + [Digit(n % 10)]
  }

  function TagText(t: Tag): string
  {
    if CustomId(t) != 0 then "custom" + Number(CustomId(t)) else "emoji" + EmojiText(t)
  }

  method RequestToToken(request: Request) returns (result: string)
    ensures result == Token(request)
  {
    result := request.query;
    if request.from.Some? {
      result := result + ("\n" + Number(request.from.value));
    }
    var i := 0;
    ghost var pieces := Head(request);
    assert request.tags[..0] == [] && pieces + TagTexts([]) == pieces;
    while i < |request.tags|
      invariant 0 <= i <= |request.tags|
      invariant result == Join(pieces + TagTexts(request.tags[..i]))
    {
      ghost var before := pieces + TagTexts(request.tags[..i]);
      var tag := request.tags[i];
      assert request.tags[..i + 1][..i] == request.tags[..i];
      JoinMore(before, TagText(tag));
      assert before + [TagText(tag)] == pieces + TagTexts(request.tags[..i + 1]);
      result := result + "\n";
      var customId := CustomId(tag);
      if customId != 0 {
        result := result + ("custom" + Number(customId));
      } else {
        result := result + ("emoji" + EmojiText(tag));
      }
      i := i + 1;
    }
    assert request.tags[..i] == request.tags;
  }

  // ----- the token as lines

  function Head(r: Request): seq<string>
  {
    if r.from.Some? then [r.query, Number(r.from.value)] else [r.query]
  }

  function TagTexts(tags: seq<Tag>): seq<string>
  {
    if tags == [] then [] else TagTexts(tags[..|tags| - 1]) + [TagText(tags[|tags| - 1])]
  }

  function Pieces(r: Request): seq<string> { Head(r) + TagTexts(r.tags) }

  function Join(pieces: seq<string>): string
    requires pieces != []
  {
    if |pieces| == 1 then pieces[0] else pieces[0] + ("\n" + Join(pieces[1..]))
  }

  function Token(r: Request): string { Join(Pieces(r)) }

  lemma {:induction false} JoinMore(pieces: seq<string>, p: string)
    requires pieces != []
    ensures Join(pieces + [p]) == Join(pieces) + "\n" + p
  {
    if |pieces| == 1 {
      assert (pieces + [p])[1..] == [p];
      assert pieces[0] + ("\n" + p) == pieces[0] + "\n" + p;
    } else {
      assert (pieces + [p])[1..] == pieces[1..] + [p];
      JoinMore(pieces[1..], p);
      var a, j := pieces[0], Join(pieces[1..]);
      assert a + ("\n" + (j + "\n" + p)) == a + ("\n" + j) + "\n" + p;
    }
  }

  predicate OneLine(s: string) { '\n' !in s }

  /** The texts the user controls hold no line break. */
  predicate LineFree(r: Request)
  {
    OneLine(r.query) && forall t :: t in r.tags && t.Text? ==> OneLine(t.text)
  }

  /** The length of the first line. */
  function LineEnd(s: string): nat
  {
    if s == "" || s[0] == '\n' then 0 else 1 + LineEnd(s[1..])
  }

  lemma {:induction false} LineEndOf(p: string, x: string)
    requires OneLine(p)
    ensures LineEnd(p) == |p| && LineEnd(p + ("\n" + x)) == |p|
  {
    if p == "" {
      assert p + ("\n" + x) == "\n" + x;
    } else {
      assert (p + ("\n" + x))[1..] == p[1..] + ("\n" + x);
      LineEndOf(p[1..], x);
    }
  }

  lemma FirstLine(p: string, q: string, x: string, y: string)
    requires OneLine(p) && OneLine(q) && p + ("\n" + x) == q + ("\n" + y)
    ensures p == q && x == y
  {
    var s, t := p + ("\n" + x), q + ("\n" + y);
    LineEndOf(p, x);
    LineEndOf(q, y);
    assert s[..|p|] == p && t[..|q|] == q;
    assert s[|p| + 1..] == x && t[|q| + 1..] == y;
  }

  /** A join is one line exactly when it joins one piece. */
  lemma JoinLines(pieces: seq<string>)
    requires pieces != [] && forall p :: p in pieces ==> OneLine(p)
    ensures OneLine(Join(pieces)) <==> |pieces| == 1
  {
    if |pieces| > 1 {
      BreakInJoin(pieces);
    }
  }

  lemma {:induction false} JoinInjective(a: seq<string>, b: seq<string>)
    requires a != [] && b != [] && Join(a) == Join(b)
    requires forall p :: p in a || p in b ==> OneLine(p)
    ensures a == b
  {
    JoinLines(a);
    JoinLines(b);
    if |a| > 1 {
      FirstLine(a[0], b[0], Join(a[1..]), Join(b[1..]));
      JoinInjective(a[1..], b[1..]);
      assert a == [a[0]] + a[1..] && b == [b[0]] + b[1..];
    }
  }

  lemma {:induction false} NumberInjective(m: nat, n: nat)
    requires Number(m) == Number(n)
    ensures m == n
  {
    if m >= 10 && n >= 10 {
      var s, t := Number(m), Number(n);
      assert s[..|s| - 1] == Number(m / 10) && t[..|t| - 1] == Number(n / 10);
      assert s[|s| - 1] == Digit(m % 10) && t[|t| - 1] == Digit(n % 10);
      NumberInjective(m / 10, n / 10);
    } else if m < 10 && n < 10 {
      assert Number(m)[0] == Digit(m) && Number(n)[0] == Digit(n);
    }
  }

  predicate SameTag(t: Tag, u: Tag) { t == u || (Blank(t) && Blank(u)) }

  /** Equal but for tags of which the token shows nothing. */
  predicate SameRequest(a: Request, b: Request)
  {
    && a.query == b.query && a.from == b.from && |a.tags| == |b.tags|
    && forall i :: 0 <= i < |a.tags| ==> SameTag(a.tags[i], b.tags[i])
  }

  predicate HasBlank(r: Request) { exists t :: t in r.tags && Blank(t) }

  lemma TagTextExact(t: Tag, u: Tag)
    ensures TagText(t) == TagText(u) <==> SameTag(t, u)
  {
    if TagText(t) == TagText(u) {
      assert TagText(t)[0] == (if CustomId(t) != 0 then 'c' else 'e');
      assert TagText(u)[0] == (if CustomId(u) != 0 then 'c' else 'e');
      if CustomId(t) != 0 {
        assert TagText(t)[6..] == Number(CustomId(t)) && TagText(u)[6..] == Number(CustomId(u));
        NumberInjective(CustomId(t), CustomId(u));
      } else {
        assert TagText(t)[5..] == EmojiText(t) && TagText(u)[5..] == EmojiText(u);
      }
    }
  }

  lemma {:induction false} TagTextsShape(tags: seq<Tag>)
    ensures |TagTexts(tags)| == |tags|
    ensures forall i :: 0 <= i < |tags| ==> TagTexts(tags)[i] == TagText(tags[i])
  {
    if tags != [] {
      TagTextsShape(tags[..|tags| - 1]);
    }
  }

  /** A number is never mistaken for a tag. */
  lemma SecondPiece(r: Request)
    ensures |Pieces(r)| == (if r.from.Some? then 2 else 1) + |r.tags|
    ensures |Pieces(r)| > 1 ==> Pieces(r)[1] != "" && ('0' <= Pieces(r)[1][0] <= '9' <==> r.from.Some?)
  {
    TagTextsShape(r.tags);
    if r.from.Some? {
      assert Pieces(r)[1] == Number(r.from.value);
      assert Pieces(r)[1][0] in Number(r.from.value);
    } else if r.tags != [] {
      assert Pieces(r)[1] == TagText(r.tags[0]);
    }
  }

  lemma PiecesExact(a: Request, b: Request)
    ensures Pieces(a) == Pieces(b) <==> SameRequest(a, b)
  {
    hide TagText, SameTag, Number;
    TagTextsShape(a.tags);
    TagTextsShape(b.tags);
    forall t, u
      ensures TagText(t) == TagText(u) <==> SameTag(t, u)
    {
      TagTextExact(t, u);
    }
    if Pieces(a) == Pieces(b) {
      HeadsEqual(a, b);
    }
    if SameRequest(a, b) {
      assert TagTexts(a.tags) == TagTexts(b.tags);
    }
  }

  /** Equal pieces split alike into the query, the peer and the tags. */
  lemma HeadsEqual(a: Request, b: Request)
    requires Pieces(a) == Pieces(b)
    ensures a.query == b.query && a.from == b.from && TagTexts(a.tags) == TagTexts(b.tags)
  {
    var p, q := Pieces(a), Pieces(b);
    SecondPiece(a);
    SecondPiece(b);
    assert p[0] == a.query && q[0] == b.query;
    if a.from.Some? {
      assert p[1] == Number(a.from.value) && q[1] == Number(b.from.value);
      NumberInjective(a.from.value, b.from.value);
      assert TagTexts(a.tags) == p[2..] && TagTexts(b.tags) == q[2..];
    } else {
      assert TagTexts(a.tags) == p[1..] && TagTexts(b.tags) == q[1..];
    }
  }

  lemma TagOneLine(t: Tag)
    requires t.Text? ==> OneLine(t.text)
    ensures OneLine(TagText(t))
  {
  }

  lemma PiecesOneLine(r: Request)
    requires LineFree(r)
    ensures forall p :: p in Pieces(r) ==> OneLine(p)
  {
    TagTextsShape(r.tags);
    forall p | p in Pieces(r)
      ensures OneLine(p)
    {
      if p in TagTexts(r.tags) {
        var i :| 0 <= i < |TagTexts(r.tags)| && p == TagTexts(r.tags)[i];
        assert r.tags[i] in r.tags;
        TagOneLine(r.tags[i]);
      }
    }
  }

  /** Without line breaks in the typed texts two requests share a token exactly when they
      differ in nothing but tags of which the token shows nothing. */
  lemma TokenExact(a: Request, b: Request)
    requires LineFree(a) && LineFree(b)
    ensures Token(a) == Token(b) <==> SameRequest(a, b)
  {
    PiecesExact(a, b);
    if Token(a) == Token(b) {
      PiecesOneLine(a);
      PiecesOneLine(b);
      JoinInjective(Pieces(a), Pieces(b));
    }
  }

  function OtherBlank(t: Tag): Tag { if t == Text(PAID) then Document(0) else Text(PAID) }

  /** The request with one blank tag replaced by another. */
  lemma BlankTwin(a: Request) returns (b: Request)
    requires LineFree(a) && HasBlank(a)
    ensures LineFree(b) && b != a && SameRequest(a, b) && Token(b) == Token(a)
  {
    var i :| 0 <= i < |a.tags| && Blank(a.tags[i]);
    b := a.(tags := a.tags[i := OtherBlank(a.tags[i])]);
    assert b.tags[i] != a.tags[i];
    TokenExact(a, b);
  }

  /** A line-free request shares its token with another line-free one exactly when it has a
      blank tag: the paid reaction, document 0 and the empty text print the same. */
  lemma CollidesExactlyWhen(a: Request)
    requires LineFree(a)
    ensures (exists b :: LineFree(b) && b != a && Token(b) == Token(a)) <==> HasBlank(a)
  {
    if HasBlank(a) {
      var b := BlankTwin(a);
    } else {
      forall b | LineFree(b) && Token(b) == Token(a)
        ensures b == a
      {
        TokenExact(b, a);
        assert forall i :: 0 <= i < |a.tags| ==> a.tags[i] in a.tags;
      }
    }
  }

  // ----- reading a token otherwise

  predicate IsNumber(s: string)
  {
    s != "" && AllDigits(s) && (|s| > 1 ==> s[0] != '0')
  }

  function Value(s: string): nat
    requires AllDigits(s)
  {
    if s == "" then 0 else 10 * Value(s[..|s| - 1]) + DigitValue(s[|s| - 1])
  }

  /** What a peer prints. */
  predicate IsPeerText(s: string) { IsNumber(s) && Value(s) < ID_LIMIT }

  /** What a tag prints. */
  predicate IsTagText(s: string)
  {
    || ("custom" <= s && IsPeerText(s[6..]) && s[6..] != "0")
    || ("emoji" <= s && s[5..] != PAID)
  }

  /** Some break of the query is followed by what a peer or a tag would print. */
  predicate HasTail(query: string)
  {
    exists i :: 0 <= i < |query| && query[i] == '\n' && (IsPeerText(query[i + 1..]) || IsTagText(query[i + 1..]))
  }

  lemma {:induction false} NumberIsNumber(n: nat)
    ensures IsNumber(Number(n)) && Value(Number(n)) == n && (n > 0 ==> Number(n)[0] != '0')
  {
    if n < 10 {
      assert Number(n)[..0] == "";
    } else {
      NumberIsNumber(n / 10);
      var s := Number(n);
      assert s[..|s| - 1] == Number(n / 10) && s[|s| - 1] == Digit(n % 10);
      assert s[0] == Number(n / 10)[0];
    }
  }

  function DigitValue(c: char): nat
    requires '0' <= c <= '9'
  {
    c as nat - 48
  }

  lemma DigitBack(c: char)
    requires '0' <= c <= '9'
    ensures DigitValue(c) < 10 && Digit(DigitValue(c)) == c && (c != '0' ==> DigitValue(c) > 0)
  {
  }

  lemma {:induction false} ValuePrinted(s: string)
    requires IsNumber(s)
    ensures Number(Value(s)) == s && (s[0] != '0' ==> Value(s) > 0)
  {
    hide Digit, DigitValue, Number;
    var n := |s| - 1;
    var init := s[..n];
    DigitBack(s[n]);
    assert s == init + [s[n]];
    if n == 0 {
      assert Value(s) == DigitValue(s[0]) && s == [s[0]];
      OneDigit(Value(s));
    } else {
      ValuePrinted(init);
      OneMoreDigit(Value(init), DigitValue(s[n]));
    }
  }

  lemma OneDigit(d: nat)
    requires d < 10
    ensures Number(d) == [Digit(d)]
  {
  }

  lemma OneMoreDigit(v: nat, d: nat)
    requires v > 0 && d < 10
    ensures Number(10 * v + d) == Number(v) + [Digit(d)]
  {
  }

  lemma TagTextRead(s: string)
    ensures IsTagText(s) <==> exists t :: TagText(t) == s
  {
    forall t | TagText(t) == s
      ensures IsTagText(s)
    {
      if CustomId(t) != 0 {
        NumberIsNumber(CustomId(t));
        assert s[6..] == Number(CustomId(t));
      } else {
        assert s[5..] == EmojiText(t);
      }
    }
    if "custom" <= s && IsPeerText(s[6..]) && s[6..] != "0" {
      ValuePrinted(s[6..]);
      var t := Document(Value(s[6..]));
      assert t.id != 0;
      assert TagText(t) == "custom" + s[6..] == s;
    } else if "emoji" <= s && s[5..] != PAID {
      assert TagText(Text(s[5..])) == "emoji" + s[5..] == s;
    }
  }

  /** Any request, line breaks or not, shares its token with another exactly when it names a
      peer or a tag, or its query ends like that of one that does. */
  lemma BreaksCollideExactlyWhen(a: Request)
    ensures (exists b :: b != a && Token(b) == Token(a)) <==> a.from.Some? || a.tags != [] || HasTail(a.query)
  {
    if a.from.Some? || a.tags != [] {
      var b := Request(Token(a), None, []);
      assert Pieces(b) == [b.query];
      assert Token(b) == Token(a) && b != a;
    } else {
      assert Pieces(a) == [a.query];
      if HasTail(a.query) {
        var i :| 0 <= i < |a.query| && a.query[i] == '\n'
          && (IsPeerText(a.query[i + 1..]) || IsTagText(a.query[i + 1..]));
        var b := TailRequest(a.query, i);
      }
      forall b | b != a && Token(b) == Token(a)
        ensures HasTail(a.query)
      {
        if b.from.Some? || b.tags != [] {
          TailOf(b);
        } else {
          PlainPieces(a, b);
        }
      }
    }
  }

  /** The query cut at a break, the rest read as a peer or a tag. */
  lemma TailRequest(query: string, i: nat) returns (b: Request)
    requires i < |query| && query[i] == '\n' && (IsPeerText(query[i + 1..]) || IsTagText(query[i + 1..]))
    ensures b != Request(query, None, []) && Token(b) == query
  {
    var head, tail := query[..i], query[i + 1..];
    assert query == head + ("\n" + tail);
    hide IsTagText, TagText, TagTexts, Number, Value, IsNumber, Join;
    if IsPeerText(tail) {
      ValuePrinted(tail);
      b := Request(head, Some(Value(tail)), []);
      assert Pieces(b) == [head, tail];
      TwoPieces(b, tail);
    } else {
      TagTextRead(tail);
      var t :| TagText(t) == tail;
      b := Request(head, None, [t]);
      OneTag(head, t);
      TwoPieces(b, tail);
    }
  }

  lemma OneTag(head: string, t: Tag)
    ensures Pieces(Request(head, None, [t])) == [head, TagText(t)]
  {
    hide TagText;
    assert [t][..0] == [];
    assert TagTexts([t]) == [] + [TagText(t)] == [TagText(t)];
  }

  lemma TwoPieces(b: Request, tail: string)
    requires Pieces(b) == [b.query, tail]
    ensures Token(b) == b.query + ("\n" + tail)
  {
    hide TagText, Number;
    assert Pieces(b)[1..] == [tail];
    assert Join([tail]) == tail;
  }

  lemma PlainPieces(a: Request, b: Request)
    requires a.from.None? && a.tags == [] && b.from.None? && b.tags == [] && Token(b) == Token(a)
    ensures b == a
  {
    assert Pieces(a) == [a.query] && Pieces(b) == [b.query];
  }

  /** The last piece of a request with a peer or a tag is the tail of its token. */
  lemma TailOf(b: Request)
    requires b.from.Some? || b.tags != []
    ensures HasTail(Token(b))
  {
    var p := Pieces(b);
    TagTextsShape(b.tags);
    var n := |p| - 1;
    JoinMore(p[..n], p[n]);
    assert p == p[..n] + [p[n]];
    var i, q := |Join(p[..n])|, Token(b);
    assert q == Join(p[..n]) + "\n" + p[n];
    assert q[i] == '\n' && q[i + 1..] == p[n];
    if b.tags != [] {
      assert p[n] == TagText(b.tags[|b.tags| - 1]);
      TagTextRead(p[n]);
    } else {
      assert p[n] == Number(b.from.value);
      NumberIsNumber(b.from.value);
    }
  }

  // ----- what the server is asked for

  datatype WireReaction = ReactionEmpty | ReactionPaid | ReactionCustomEmoji(id: nat) | ReactionEmoji(text: string)

  /** `ReactionToMTP`. */
  function Wire(t: Tag): WireReaction
  {
    if t == Text("") then ReactionEmpty
    else if t == Text(PAID) then ReactionPaid
    else if CustomId(t) != 0 then ReactionCustomEmoji(CustomId(t))
    else ReactionEmoji(EmojiText(t))
  }

  /** Tags that print the same are still sent as different reactions. */
  lemma SentApart(t: Tag, u: Tag)
    ensures Wire(t) == Wire(u) <==> t == u
  {
  }

  lemma BreakInJoin(pieces: seq<string>)
    requires |pieces| > 1
    ensures !OneLine(Join(pieces))
  {
    assert Join(pieces)[|pieces[0]|] == '\n';
  }
}
