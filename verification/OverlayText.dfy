/** Filling `{{param}}` placeholders into a text. */
module OverlayText {
  import opened Wrappers

  /** The order of `std::string`. */
  predicate Less(a: string, b: string) {
    if b == "" then false
    else a == "" || a[0] < b[0] || (a[0] == b[0] && Less(a[1..], b[1..]))
  }

  predicate Ascending(entries: seq<(string, string)>) {
    forall i, j :: 0 <= i < j < |entries| ==> Less(entries[i].0, entries[j].0)
  }

  /** A `std::map` as it is walked: by ascending key. */
  type Params = entries: seq<(string, string)> | Ascending(entries)

  function Token(key: string): string {
    "{{" + key + "}}"
  }

  predicate StartsWith(text: string, token: string) {
    |token| <= |text| && text[..|token|] == token
  }

  /** Left to right, non-overlapping, and never looking again at what was filled in. */
  function ReplaceAll(text: string, token: string, value: string): string
    requires token != ""
    decreases |text|
  {
    if StartsWith(text, token) then value + ReplaceAll(text[|token|..], token, value)
    else if text == "" then ""
    else [text[0]] + ReplaceAll(text[1..], token, value)
  }

  /** One pass per parameter, in key order. */
  function Substituted(text: string, params: Params): string {
    if params == [] then text
    else
      var last := params[|params| - 1];
      ReplaceAll(Substituted(text, params[..|params| - 1]), Token(last.0), last.1)
  }

  /** The token does not start anywhere from `from` up to, not including, `to`. */
  ghost predicate NoneBetween(text: string, token: string, from: nat, to: nat) {
    forall i: nat | from <= i < to && i <= |text| :: !StartsWith(text[i..], token)
  }

  lemma TailHasNone(text: string, token: string, from: nat, to: nat)
    requires from <= |text| && NoneBetween(text, token, from, to)
    ensures to >= from ==> NoneBetween(text[from..], token, 0, to - from)
  {
    forall i: nat | i < to - from && i <= |text[from..]|
      ensures !StartsWith(text[from..][i..], token)
    {
      assert text[from..][i..] == text[from + i..];
    }
  }

  lemma {:induction false} UpToFirstMatch(text: string, token: string, value: string, p: nat)
    requires token != "" && p <= |text| && NoneBetween(text, token, 0, p)
    ensures ReplaceAll(text, token, value) == text[..p] + ReplaceAll(text[p..], token, value)
    decreases p
  {
    assert text[0..] == text;
    if p == 0 {
    } else {
      var rest := text[1..];
      assert NoneBetween(text, token, 1, p);
      TailHasNone(text, token, 1, p);
      UpToFirstMatch(rest, token, value, p - 1);
      assert rest[p - 1..] == text[p..];
      assert text[..p] == [text[0]] + rest[..p - 1];
      assert !StartsWith(text[0..], token);
    }
  }

  /** `std::string::find`: the first occurrence at or after `pos`. */
  method Find(text: string, token: string, pos: nat) returns (r: Option<nat>)
    requires token != "" && pos <= |text|
    ensures FoundAt(text, token, pos, r)
  {
    for i := pos to |text| + 1
      invariant NoneBetween(text, token, pos, i)
    {
      if StartsWith(text[i..], token) {
        return Some(i);
      }
    }
    return None;
  }

  ghost predicate FoundAt(text: string, token: string, pos: nat, r: Option<nat>) {
    match r
    case Some(p) => pos <= p <= |text| && StartsWith(text[p..], token) && NoneBetween(text, token, pos, p)
    case None => NoneBetween(text, token, pos, |text| + 1)
  }

  lemma TailSlices(text: string, pos: nat, p: nat)
    requires pos <= p <= |text|
    ensures text[pos..][p - pos..] == text[p..]
    ensures text[pos..][..p - pos] == text[pos..p]
  {
  }

  lemma DropTwice(text: string, a: nat, b: nat)
    requires a + b <= |text|
    ensures text[a..][b..] == text[a + b..]
  {
  }

  lemma MatchHere(text: string, token: string, value: string, p: nat)
    requires token != "" && p <= |text| && StartsWith(text[p..], token)
    ensures p + |token| <= |text|
    ensures ReplaceAll(text[p..], token, value) == value + ReplaceAll(text[p + |token|..], token, value)
  {
    DropTwice(text, p, |token|);
  }

  lemma FirstMatch(text: string, token: string, value: string, pos: nat, p: nat)
    requires token != "" && pos <= p <= |text| && NoneBetween(text, token, pos, p)
    ensures ReplaceAll(text[pos..], token, value) == text[pos..p] + ReplaceAll(text[p..], token, value)
  {
    var tail := text[pos..];
    TailHasNone(text, token, pos, p);
    UpToFirstMatch(tail, token, value, p - pos);
    TailSlices(text, pos, p);
  }

  /** From `pos` on, the next occurrence `p` is replaced and the rest is still to be done. */
  lemma NextMatch(text: string, token: string, value: string, pos: nat, p: nat)
    requires token != "" && FoundAt(text, token, pos, Some(p))
    ensures p + |token| <= |text|
    ensures ReplaceAll(text[pos..], token, value) == text[pos..p] + (value + ReplaceAll(text[p + |token|..], token, value))
  {
    MatchHere(text, token, value, p);
    FirstMatch(text, token, value, pos, p);
  }

  lemma NoMatchLeft(text: string, token: string, value: string, pos: nat)
    requires token != "" && pos <= |text| && FoundAt(text, token, pos, None)
    ensures ReplaceAll(text[pos..], token, value) == text[pos..]
  {
    TailHasNone(text, token, pos, |text|);
    UpToFirstMatch(text[pos..], token, value, |text| - pos);
    assert text[pos..][|text| - pos..] == "";
  }

  /** The text between the passes: what is final, and what is still to be done. */
  ghost function Goal(text: string, token: string, value: string, pos: nat): string
    requires token != "" && pos <= |text|
  {
    text[..pos] + ReplaceAll(text[pos..], token, value)
  }

  lemma Regrouped(a: string, b: string, c: string, d: string)
    ensures a + (b + (c + d)) == a + (b + c) + d
  {
  }

  /** Replacing one occurrence keeps the goal. */
  lemma ReplacingKeepsGoal(text: string, token: string, value: string, pos: nat, p: nat)
    requires token != "" && FoundAt(text, token, pos, Some(p))
    ensures p + |token| <= |text|
    ensures var out := text[..p] + value + text[p + |token|..];
            Goal(out, token, value, p + |value|) == Goal(text, token, value, pos)
  {
    NextMatch(text, token, value, pos, p);
    Spliced(text, pos, p, token, value);
    Regrouped(text[..pos], text[pos..p], value, ReplaceAll(text[p + |token|..], token, value));
  }

  /** One key: the in-place loop ends for every value, also for one that contains the token itself. */
  method ReplaceInPlace(text: string, token: string, value: string) returns (out: string)
    requires token != ""
    ensures out == ReplaceAll(text, token, value)
  {
    out := text;
    var pos: nat := 0;
    var found := Find(out, token, pos);
    assert out[0..] == text;
    while found.Some?
      invariant pos <= |out| && FoundAt(out, token, pos, found)
      invariant Goal(out, token, value, pos) == ReplaceAll(text, token, value)
      decreases |out| - pos, found.Some?
    {
      var p := found.value;
      ReplacingKeepsGoal(out, token, value, pos, p);
      out := out[..p] + value + out[p + |token|..];
      pos := p + |value|;
      found := Find(out, token, pos);
    }
    NoMatchLeft(out, token, value, pos);
    assert out[..pos] + out[pos..] == out;
  }

  lemma Spliced(text: string, pos: nat, p: nat, token: string, value: string)
    requires pos <= p && p + |token| <= |text|
    ensures var out := text[..p] + value + text[p + |token|..];
            && out[..p + |value|] == text[..pos] + (text[pos..p] + value)
            && out[p + |value|..] == text[p + |token|..]
  {
  }

  method SubstituteParams(text: string, params: Params) returns (out: string)
    ensures out == Substituted(text, params)
  {
    out := text;
    for i := 0 to |params|
      invariant out == Substituted(text, params[..i])
    {
      assert params[..i + 1][..i] == params[..i];
      out := ReplaceInPlace(out, Token(params[i].0), params[i].1);
    }
    assert params[..|params|] == params;
  }

  // ---------- When a pass changes nothing ----------

  lemma {:induction false} LengthMoves(text: string, token: string, value: string)
    requires token != ""
    ensures |value| >= |token| ==> |ReplaceAll(text, token, value)| >= |text|
    ensures |value| <= |token| ==> |ReplaceAll(text, token, value)| <= |text|
    decreases |text|
  {
    if StartsWith(text, token) {
      LengthMoves(text[|token|..], token, value);
    } else if text == "" {
    } else {
      LengthMoves(text[1..], token, value);
    }
  }

  lemma NoneFromNext(text: string, token: string)
    requires text != ""
    ensures NoneBetween(text, token, 0, |text| + 1)
       <==> !StartsWith(text, token) && NoneBetween(text[1..], token, 0, |text[1..]| + 1)
  {
    assert text[0..] == text;
    assert NoneBetween(text, token, 0, |text| + 1) ==> NoneBetween(text, token, 1, |text| + 1);
    if NoneBetween(text, token, 1, |text| + 1) {
      TailHasNone(text, token, 1, |text| + 1);
    }
    forall i: nat | 1 <= i <= |text|
      ensures text[i..] == text[1..][i - 1..]
    {
    }
  }

  /** Replacing a first match by anything but the token itself changes the text. */
  lemma MatchIsChanged(text: string, token: string, value: string)
    requires token != "" && StartsWith(text, token) && value != token
    ensures value + ReplaceAll(text[|token|..], token, value) != text
  {
    LengthMoves(text[|token|..], token, value);
    var out := value + ReplaceAll(text[|token|..], token, value);
    if |value| == |token| {
      assert out[..|token|] == value;
    }
  }

  /** One pass leaves a text as it is exactly if the token does not occur in it or is its own value. */
  lemma {:induction false} PassIsInertIff(text: string, token: string, value: string)
    requires token != ""
    ensures ReplaceAll(text, token, value) == text <==> NoneBetween(text, token, 0, |text| + 1) || value == token
    decreases |text|
  {
    if StartsWith(text, token) {
      assert text[0..] == text;
      assert text == token + text[|token|..];
      PassIsInertIff(text[|token|..], token, value);
      if value != token {
        MatchIsChanged(text, token, value);
      }
    } else if text == "" {
    } else {
      PassIsInertIff(text[1..], token, value);
      NoneFromNext(text, token);
      assert text == [text[0]] + text[1..];
    }
  }

  lemma ReplacedText(before: string, token: string, value: string, after: string)
    requires token != "" && NoneBetween(before + token + after, token, 0, |before|)
    ensures ReplaceAll(before + token + after, token, value) == before + value + ReplaceAll(after, token, value)
  {
    var text := before + token + after;
    UpToFirstMatch(text, token, value, |before|);
    assert text[..|before|] == before && text[|before|..] == token + after;
    assert (token + after)[|token|..] == after;
  }

  lemma WholeToken(token: string, value: string)
    requires token != ""
    ensures ReplaceAll(token, token, value) == value
  {
    ReplacedText("", token, value, "");
    assert "" + token + "" == token;
    assert "" + value + "" == value;
  }

  lemma TwoPasses(text: string, a: (string, string), b: (string, string))
    requires Less(a.0, b.0)
    ensures Substituted(text, [a, b]) == ReplaceAll(ReplaceAll(text, Token(a.0), a.1), Token(b.0), b.1)
  {
    assert [a, b][..1] == [a] && [a][..0] == [];
    assert Substituted(text, [a][..0]) == text;
  }

  /**
    Values are not inert across keys: the value of a smaller key survives the pass of a larger one
    exactly if it does not contain the larger key's token, or if that token is its own value.
  */
  lemma EarlierValueSurvivesIff(a: string, b: string, va: string, vb: string)
    requires Less(a, b)
    ensures Substituted(Token(a), [(a, va), (b, vb)]) == va
       <==> NoneBetween(va, Token(b), 0, |va| + 1) || vb == Token(b)
  {
    TwoPasses(Token(a), (a, va), (b, vb));
    WholeToken(Token(a), va);
    PassIsInertIff(va, Token(b), vb);
  }

  /** A value that spells a larger key's token is filled in again. */
  lemma LaterKeysReadEarlierValues(a: string, b: string, value: string)
    requires Less(a, b)
    ensures Substituted(Token(a), [(a, Token(b)), (b, value)]) == value
  {
    TwoPasses(Token(a), (a, Token(b)), (b, value));
    WholeToken(Token(a), Token(b));
    WholeToken(Token(b), value);
  }

  // ---------- Templates without stray braces ----------

  datatype Piece = Literal(text: string) | Placeholder(key: string)

  ghost predicate BraceFree(s: string) {
    forall i :: 0 <= i < |s| ==> s[i] != '{' && s[i] != '}'
  }

  ghost predicate Plain(p: Piece) {
    match p
    case Literal(text) => BraceFree(text)
    case Placeholder(key) => BraceFree(key)
  }

  function PieceText(p: Piece): string {
    match p
    case Literal(text) => text
    case Placeholder(key) => Token(key)
  }

  function TemplateText(pieces: seq<Piece>): string {
    if pieces == [] then "" else PieceText(pieces[0]) + TemplateText(pieces[1..])
  }

  function FillPiece(p: Piece, key: string, value: string): Piece {
    if p == Placeholder(key) then Literal(value) else p
  }

  function FillKey(pieces: seq<Piece>, key: string, value: string): seq<Piece> {
    seq(|pieces|, i requires 0 <= i < |pieces| => FillPiece(pieces[i], key, value))
  }

  function Lookup(params: Params, key: string): Option<string> {
    if params == [] then None
    else
      var last := params[|params| - 1];
      if last.0 == key then Some(last.1) else Lookup(params[..|params| - 1], key)
  }

  /** Each placeholder whose key has a value becomes that value. */
  function FillFrom(p: Piece, params: Params): Piece {
    if p.Placeholder? && Lookup(params, p.key).Some? then Literal(Lookup(params, p.key).value) else p
  }

  function FillPieces(pieces: seq<Piece>, params: Params): seq<Piece> {
    seq(|pieces|, i requires 0 <= i < |pieces| => FillFrom(pieces[i], params))
  }

  /** Text without an opening brace cannot be the start of a token. */
  lemma {:induction false} LiteralIsKept(text: string, rest: string, key: string, value: string)
    requires forall i :: 0 <= i < |text| ==> text[i] != '{'
    ensures ReplaceAll(text + rest, Token(key), value) == text + ReplaceAll(rest, Token(key), value)
  {
    if text == "" {
      assert text + rest == rest;
    } else {
      var all := text + rest;
      NoBraceAt(all, key, 0);
      assert all[1..] == text[1..] + rest;
      LiteralIsKept(text[1..], rest, key, value);
    }
  }

  /** Where the characters of a token are. */
  lemma TokenAt(key: string)
    ensures forall i :: 0 <= i < |key| ==> Token(key)[2 + i] == key[i]
    ensures |Token(key)| == |key| + 4 && Token(key)[2 + |key|] == '}'
    ensures Token(key)[0] == Token(key)[1] == '{'
  {
  }

  lemma StartIsShared(text: string, token: string, i: nat)
    requires StartsWith(text, token) && i < |token|
    ensures text[i] == token[i]
  {
    assert text[..|token|][i] == text[i];
  }

  lemma TokensDiffer(k: string, key: string, rest: string)
    requires BraceFree(k) && BraceFree(key) && StartsWith(Token(k) + rest, Token(key))
    ensures k == key
  {
    var text, token := Token(k) + rest, Token(key);
    TokenAt(k);
    TokenAt(key);
    forall i: nat | i < |token|
      ensures text[i] == token[i]
    {
      StartIsShared(text, token, i);
    }
    assert text[2 + |k|] == '}';
    assert |k| == |key|;
    forall i | 0 <= i < |k|
      ensures k[i] == key[i]
    {
      assert text[2 + i] == Token(k)[2 + i];
    }
  }

  lemma NoBraceAt(text: string, key: string, i: nat)
    requires i < 2 && i < |text| && text[i] != '{'
    ensures !StartsWith(text, Token(key))
  {
    TokenAt(key);
    if StartsWith(text, Token(key)) {
      StartIsShared(text, Token(key), i);
    }
  }

  lemma SkipOne(text: string, token: string, value: string)
    requires token != "" && text != "" && !StartsWith(text, token)
    ensures ReplaceAll(text, token, value) == [text[0]] + ReplaceAll(text[1..], token, value)
  {
  }

  lemma TwoBraces(k: string, rest: string)
    ensures Token(k) + rest == ['{'] + (['{'] + ((k + "}}") + rest))
  {
  }

  /** The token of another key is passed over. */
  lemma OtherTokenIsKept(k: string, key: string, value: string, rest: string)
    requires BraceFree(k) && BraceFree(key) && k != key
    ensures ReplaceAll(Token(k) + rest, Token(key), value) == Token(k) + ReplaceAll(rest, Token(key), value)
  {
    var text, tail := Token(k) + rest, k + "}}";
    if StartsWith(text, Token(key)) {
      TokensDiffer(k, key, rest);
    }
    SkipOne(text, Token(key), value);
    var next := text[1..];
    assert next[1] == tail[0];
    NoBraceAt(next, key, 1);
    SkipOne(next, Token(key), value);
    assert next[1..] == tail + rest;
    LiteralIsKept(tail, rest, key, value);
    TwoBraces(k, ReplaceAll(rest, Token(key), value));
  }

  lemma PieceIsFilled(p: Piece, key: string, value: string, rest: string)
    requires Plain(p) && BraceFree(key)
    ensures ReplaceAll(PieceText(p) + rest, Token(key), value)
         == PieceText(FillPiece(p, key, value)) + ReplaceAll(rest, Token(key), value)
  {
    match p
    case Literal(text) => LiteralIsKept(text, rest, key, value);
    case Placeholder(k) =>
      if k == key {
        var text := Token(k) + rest;
        assert text[..|Token(k)|] == Token(k) && text[|Token(k)|..] == rest;
      } else {
        OtherTokenIsKept(k, key, value, rest);
      }
  }

  lemma {:induction false} KeyIsFilled(pieces: seq<Piece>, key: string, value: string)
    requires (forall p :: p in pieces ==> Plain(p)) && BraceFree(key)
    ensures ReplaceAll(TemplateText(pieces), Token(key), value) == TemplateText(FillKey(pieces, key, value))
  {
    if pieces == [] {
    } else {
      KeyIsFilled(pieces[1..], key, value);
      PieceIsFilled(pieces[0], key, value, TemplateText(pieces[1..]));
      assert FillKey(pieces, key, value)[1..] == FillKey(pieces[1..], key, value);
    }
  }

  ghost predicate BraceFreeParams(params: Params) {
    forall i :: 0 <= i < |params| ==> BraceFree(params[i].0) && BraceFree(params[i].1)
  }

  lemma {:induction false} LookupIsBraceFree(params: Params, key: string)
    requires BraceFreeParams(params)
    ensures Lookup(params, key).Some? ==> BraceFree(Lookup(params, key).value)
  {
    if params == [] {
    } else {
      LookupIsBraceFree(params[..|params| - 1], key);
    }
  }

  lemma {:induction false} NotLessThanItself(a: string)
    ensures !Less(a, a)
  {
    if a == "" {
    } else {
      NotLessThanItself(a[1..]);
    }
  }

  /** A key that is larger than all keys so far has no value yet. */
  lemma {:induction false} LargerKeyIsNew(params: Params, key: string)
    requires forall i :: 0 <= i < |params| ==> Less(params[i].0, key)
    ensures Lookup(params, key) == None
  {
    if params == [] {
    } else {
      NotLessThanItself(key);
      LargerKeyIsNew(params[..|params| - 1], key);
    }
  }

  lemma OneMoreParam(p: Piece, params: Params)
    requires params != []
    ensures var last := params[|params| - 1];
            FillFrom(p, params) == FillPiece(FillFrom(p, params[..|params| - 1]), last.0, last.1)
  {
    LargerKeyIsNew(params[..|params| - 1], params[|params| - 1].0);
  }

  /**
    Templates whose literal text, keys and values have no braces are filled once: each placeholder
    becomes the value of its key, if it has one, whatever the order of the keys.
  */
  lemma {:induction false} TemplateIsFilledOnce(pieces: seq<Piece>, params: Params)
    requires (forall p :: p in pieces ==> Plain(p)) && BraceFreeParams(params)
    ensures Substituted(TemplateText(pieces), params) == TemplateText(FillPieces(pieces, params))
  {
    if params == [] {
      assert FillPieces(pieces, params) == pieces;
    } else {
      var m := |params| - 1;
      var before, last := params[..m], params[m];
      TemplateIsFilledOnce(pieces, before);
      var filled := FillPieces(pieces, before);
      forall p | p in filled
        ensures Plain(p)
      {
        var i :| 0 <= i < |pieces| && p == FillFrom(pieces[i], before);
        FilledIsPlain(pieces[i], before);
      }
      KeyIsFilled(filled, last.0, last.1);
      SameFilling(pieces, params);
    }
  }

  lemma FilledIsPlain(p: Piece, params: Params)
    requires Plain(p) && BraceFreeParams(params)
    ensures Plain(FillFrom(p, params))
  {
    if p.Placeholder? {
      LookupIsBraceFree(params, p.key);
    }
  }

  lemma SameFilling(pieces: seq<Piece>, params: Params)
    requires params != []
    ensures var last := params[|params| - 1];
            FillPieces(pieces, params) == FillKey(FillPieces(pieces, params[..|params| - 1]), last.0, last.1)
  {
    forall i | 0 <= i < |pieces|
      ensures FillFrom(pieces[i], params)
           == FillPiece(FillFrom(pieces[i], params[..|params| - 1]), params[|params| - 1].0, params[|params| - 1].1)
    {
      OneMoreParam(pieces[i], params);
    }
  }
}
