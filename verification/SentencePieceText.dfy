/** SentencePiece encoding and decoding of whole texts: special tokens, spaces, byte fallback. */
module SentencePieceText {
  import opened Prelude
  import opened Bytes
  import opened Text
  import opened MergeList
  import opened Vocabulary
  import opened Fragments
  import opened SentencePiece

  /** The rune that stands for a space inside tokens. */
  const SEP: char := 0x2581 as char

  function MarkedRune(c: char): char {
    if c == ' ' then SEP else c
  }

  function SpacedRune(c: char): char {
    if c == SEP then ' ' else c
  }

  function Marked(s: string): (r: string)
    ensures |r| == |s|
  {
    seq(|s|, i requires 0 <= i < |s| => MarkedRune(s[i]))
  }

  function Spaced(s: string): (r: string)
    ensures |r| == |s|
  {
    seq(|s|, i requires 0 <= i < |s| => SpacedRune(s[i]))
  }

  lemma SpacedConcat(x: string, y: string)
    ensures Spaced(x + y) == Spaced(x) + Spaced(y)
  {
  }

  lemma SpacedMarked(s: string)
    ensures Spaced(Marked(s)) == Spaced(s)
  {
  }

  // ----- Byte tokens -----

  function HexDigit(n: int): char
    requires 0 <= n < 16
  {
    if n < 10 then '0' + n as char else 'A' + (n - 10) as char
  }

  function ByteToken(b: Byte): string {
    "<0x" + [HexDigit(b as int / 16), HexDigit(b as int % 16)] + ">"
  }

  function HexValue(c: char): Option<int> {
    if '0' <= c <= '9' then Some(c as int - '0' as int)
    else if 'A' <= c <= 'F' then Some(c as int - 'A' as int + 10)
    else if 'a' <= c <= 'f' then Some(c as int - 'a' as int + 10)
    else None
  }

  /** Six bytes that look like a byte token. */
  predicate ByteForm(d: string) {
    ByteLen(d) == 6 && |d| >= 4 && d[..3] == "<0x" && d[|d| - 1] == '>'
  }

  /** The number between <0x and >: two digits, or one after an underscore. */
  function ParseByte(d: string): Option<Byte> {
    if |d| != 6 then None
    else
      match (HexValue(d[3]), HexValue(d[4]))
      case (Some(h), Some(l)) => assert 0 <= 16 * h + l < 256; Some((16 * h + l) as Byte)
      case (None, Some(l)) => if d[3] == '_' then Some(l as Byte) else None
      case (_, None) => None
  }

  lemma ByteLenAscii(s: string)
    requires forall i | 0 <= i < |s| :: s[i] < 128 as char
    ensures ByteLen(s) == |s|
  {
  }

  /** A byte token is recognized, and stands for its byte. */
  lemma ByteTokenParses(b: Byte)
    ensures ByteForm(ByteToken(b)) && ParseByte(ByteToken(b)) == Some(b) && Spaced(ByteToken(b)) == ByteToken(b)
  {
    var d := ByteToken(b);
    ByteLenAscii(d);
    assert d[..3] == "<0x" && d[3] == HexDigit(b as int / 16) && d[4] == HexDigit(b as int % 16) && d[5] == '>';
    assert HexValue(d[3]) == Some(b as int / 16) && HexValue(d[4]) == Some(b as int % 16);
    assert forall i | 0 <= i < 6 :: d[i] != SEP;
  }

  /** A byte token is the byte in two capital hexadecimal digits. */
  lemma ByteTokenDigits(b: Byte)
    ensures var digits := "0123456789ABCDEF";
            ByteToken(b) == "<0x" + [digits[b as int / 16], digits[b as int % 16]] + ">"
  {
  }

  /** Two hexadecimal digits of either case parse to their byte; so does one digit after an underscore. */
  lemma ParsesDigits(h: int, l: int)
    requires 0 <= h < 16 && 0 <= l < 16
    ensures var upper, lower := "0123456789ABCDEF", "0123456789abcdef";
            && (forall x, y | x in [upper[h], lower[h]] && y in [upper[l], lower[l]] ::
                  ParseByte("<0x" + [x, y] + ">") == Some((16 * h + l) as Byte))
            && ParseByte("<0x_" + [upper[l]] + ">") == ParseByte("<0x_" + [lower[l]] + ">") == Some(l as Byte)
  {
    var upper, lower := "0123456789ABCDEF", "0123456789abcdef";
    forall x, y | x in [upper[h], lower[h]] && y in [upper[l], lower[l]]
      ensures ParseByte("<0x" + [x, y] + ">") == Some((16 * h + l) as Byte)
    {
      DigitValue(h);
      DigitValue(l);
      ParsesTwo(x, y);
    }
    DigitValue(l);
    ParsesTwo('_', upper[l]);
    ParsesTwo('_', lower[l]);
  }

  lemma DigitValue(n: int)
    requires 0 <= n < 16
    ensures HexValue("0123456789ABCDEF"[n]) == HexValue("0123456789abcdef"[n]) == Some(n)
  {
  }

  lemma ParsesTwo(x: char, y: char)
    ensures var d := "<0x" + [x, y] + ">"; |d| == 6 && d[3] == x && d[4] == y
    ensures "<0x_" + [y] + ">" == "<0x" + ['_', y] + ">"
  {
  }

  /** Anything else between the brackets does not parse. */
  lemma ParsesNothingElse(d: string)
    requires |d| == 6
    ensures ParseByte(d).Some? ==> d[4] in "0123456789ABCDEFabcdef" && d[3] in "0123456789ABCDEFabcdef_"
  {
    HexDigits(d[3]);
    HexDigits(d[4]);
  }

  lemma HexDigits(c: char)
    ensures HexValue(c).Some? ==> c in "0123456789ABCDEFabcdef"
  {
    var s := "0123456789ABCDEFabcdef";
    if '0' <= c <= '9' {
      assert s[c as int - '0' as int] == c;
    } else if 'A' <= c <= 'F' {
      assert s[c as int - 'A' as int + 10] == c;
    } else if 'a' <= c <= 'f' {
      assert s[c as int - 'a' as int + 16] == c;
    }
  }

  // ----- Decoding -----

  /** What one token's text contributes, or None when it looks like a byte token and is not. */
  function DecodeText(data: string): Option<seq<Byte>> {
    var d := Spaced(data);
    if !ByteForm(d) then Some(Utf8All(d))
    else
      match ParseByte(d)
      case None => None
      case Some(b) => Some([b])
  }

  lemma {:induction false} ByteLenIs(s: string)
    ensures ByteLen(s) == |Utf8All(s)|
  {
    if s != "" {
      ByteLenIs(s[1..]);
    }
  }

  /** A token fails to decode exactly if it has six bytes, begins with <0x and ends with >, and does not parse. */
  lemma DecodeTextFails(data: string)
    ensures var d := Spaced(data);
            var framed := |Utf8All(d)| == 6 && |d| >= 4 && d[0] == '<' && d[1] == '0' && d[2] == 'x'
                          && d[|d| - 1] == '>';
            && (DecodeText(data).None? <==> framed && ParseByte(d).None?)
            && (DecodeText(data).Some? && !framed ==> DecodeText(data).value == Utf8All(d))
            && (DecodeText(data).Some? && framed ==> [ParseByte(d).value] == DecodeText(data).value)
  {
    var d := Spaced(data);
    ByteLenIs(d);
    if |d| >= 4 {
      assert d[..3] == [d[0], d[1], d[2]];
    }
  }

  function DecodeId(v: Vocab, id: int): Option<seq<Byte>> {
    if 0 <= id < |v.values| then DecodeText(v.Decode(id)) else None
  }

  function Join(x: Option<seq<Byte>>, y: Option<seq<Byte>>): Option<seq<Byte>> {
    if x.Some? && y.Some? then Some(x.value + y.value) else None
  }

  /** The bytes the tokens decode to, or None if one of them does not. */
  function DecodeIds(v: Vocab, ids: seq<int>): Option<seq<Byte>> {
    if ids == [] then Some([]) else Join(DecodeIds(v, ids[..|ids| - 1]), DecodeId(v, ids[|ids| - 1]))
  }

  method Decode(v: Vocab, ids: seq<int>) returns (r: Option<seq<Byte>>)
    ensures r == DecodeIds(v, ids)
  {
    var sb: seq<Byte> := [];
    for i := 0 to |ids|
      invariant DecodeIds(v, ids[..i]) == Some(sb)
    {
      assert ids[..i + 1][..i] == ids[..i];
      var data := DecodeId(v, ids[i]);
      if data.None? {
        DecodeFails(v, ids, i + 1);
        return None;
      }
      sb := sb + data.value;
    }
    assert ids[..|ids|] == ids;
    r := Some(sb);
  }

  lemma {:induction false} DecodeFails(v: Vocab, ids: seq<int>, n: nat)
    requires n <= |ids| && DecodeIds(v, ids[..n]).None?
    ensures DecodeIds(v, ids).None?
  {
    if n == |ids| {
      assert ids[..n] == ids;
    } else {
      assert ids[..|ids| - 1][..n] == ids[..n];
      DecodeFails(v, ids[..|ids| - 1], n);
    }
  }

  lemma {:induction false} DecodeConcat(v: Vocab, x: seq<int>, y: seq<int>)
    ensures DecodeIds(v, x + y) == Join(DecodeIds(v, x), DecodeIds(v, y))
    decreases |y|
  {
    if y == [] {
      assert x + y == x;
      assert DecodeIds(v, x).Some? ==> DecodeIds(v, x).value + [] == DecodeIds(v, x).value;
    } else {
      var n := |y| - 1;
      assert (x + y)[..|x + y| - 1] == x + y[..n];
      DecodeConcat(v, x, y[..n]);
      JoinAssociates(DecodeIds(v, x), DecodeIds(v, y[..n]), DecodeId(v, y[n]));
    }
  }

  lemma JoinAssociates(x: Option<seq<Byte>>, y: Option<seq<Byte>>, z: Option<seq<Byte>>)
    ensures Join(Join(x, y), z) == Join(x, Join(y, z))
  {
    if x.Some? && y.Some? && z.Some? {
      assert (x.value + y.value) + z.value == x.value + (y.value + z.value);
    }
  }

  lemma DecodeOne(v: Vocab, id: int)
    ensures DecodeIds(v, [id]) == DecodeId(v, id)
  {
    assert [id][..0] == [];
    assert DecodeId(v, id).Some? ==> [] + DecodeId(v, id).value == DecodeId(v, id).value;
  }

  // ----- Encoding -----

  /** Tokens for single bytes; a byte without a token is dropped. */
  function ByteIds(v: Vocab, bytes: seq<Byte>): seq<int> {
    if bytes == [] then []
    else
      var id := v.Encode(ByteToken(bytes[|bytes| - 1]));
      ByteIds(v, bytes[..|bytes| - 1]) + if id >= 0 then [id] else []
  }

  /** A piece's token, or the tokens of its bytes. */
  function PieceIds(v: Vocab, piece: string): seq<int> {
    var id := v.Encode(piece);
    if id >= 0 then [id] else ByteIds(v, Utf8All(piece))
  }

  function PiecesIds(v: Vocab, pieces: seq<string>): seq<int> {
    if pieces == [] then [] else PiecesIds(v, pieces[..|pieces| - 1]) + PieceIds(v, pieces[|pieces| - 1])
  }

  /** A text without special tokens. */
  function TextIds(v: Vocab, value: string): seq<int>
    requires v.Valid()
  {
    var text := Marked(value);
    var id := v.Encode(text);
    if id >= 0 then [id] else PiecesIds(v, Naive(Score(v), Singles(text)))
  }

  function FragmentIds(v: Vocab, f: Fragment): seq<int>
    requires v.Valid()
  {
    if f.ids != [] then f.ids else TextIds(v, f.value)
  }

  function FragmentsIds(v: Vocab, fragments: seq<Fragment>): seq<int>
    requires v.Valid()
  {
    if fragments == [] then []
    else FragmentsIds(v, fragments[..|fragments| - 1]) + FragmentIds(v, fragments[|fragments| - 1])
  }

  function EncodeIds(v: Vocab, specials: seq<string>, s: string): seq<int>
    requires v.Valid() && Specials(v, specials)
  {
    FragmentsIds(v, SplitAll(v, specials, |specials|, s))
  }

  // ----- Which encodings are right, by the token texts alone -----

  /** The tokens of the bytes that have one, in order. */
  ghost predicate BytesCoded(v: Vocab, bytes: seq<Byte>, ids: seq<int>) {
    if bytes == [] then ids == []
    else
      var k, n := |bytes| - 1, |ids| - 1;
      if ByteToken(bytes[k]) in v.values then
        n >= 0 && IsLast(v.values, ByteToken(bytes[k]), ids[n]) && BytesCoded(v, bytes[..k], ids[..n])
      else BytesCoded(v, bytes[..k], ids)
  }

  ghost predicate PieceCoded(v: Vocab, piece: string, ids: seq<int>) {
    if piece in v.values then |ids| == 1 && IsLast(v.values, piece, ids[0])
    else BytesCoded(v, Utf8All(piece), ids)
  }

  /** Each piece's token, or else the tokens of its bytes. */
  ghost predicate Coded(v: Vocab, pieces: seq<string>, ids: seq<int>) {
    if pieces == [] then ids == []
    else
      exists n | 0 <= n <= |ids| ::
        Coded(v, pieces[..|pieces| - 1], ids[..n]) && PieceCoded(v, pieces[|pieces| - 1], ids[n..])
  }

  /** The token of the whole text with its spaces marked, or those of the pieces that merging leaves of it. */
  ghost predicate TextCoded(v: Vocab, value: string, ids: seq<int>)
    requires v.Valid()
  {
    if Marked(value) in v.values then |ids| == 1 && IsLast(v.values, Marked(value), ids[0])
    else exists pieces :: Reaches(v, Singles(Marked(value)), pieces) && Coded(v, pieces, ids)
  }

  lemma {:induction false} BytesAreCoded(v: Vocab, bytes: seq<Byte>)
    ensures BytesCoded(v, bytes, ByteIds(v, bytes))
  {
    if bytes != [] {
      var before, last := bytes[..|bytes| - 1], ByteToken(bytes[|bytes| - 1]);
      BytesAreCoded(v, before);
      v.EncodeFinds(last);
      var ids := ByteIds(v, before);
      assert ByteIds(v, bytes) == if last in v.values then ids + [v.Encode(last)] else ids;
      assert (ids + [v.Encode(last)])[..|ids|] == ids;
    }
  }

  lemma PieceIsCoded(v: Vocab, piece: string)
    ensures PieceCoded(v, piece, PieceIds(v, piece))
  {
    v.EncodeFinds(piece);
    BytesAreCoded(v, Utf8All(piece));
  }

  lemma {:induction false} PiecesAreCoded(v: Vocab, pieces: seq<string>)
    ensures Coded(v, pieces, PiecesIds(v, pieces))
  {
    if pieces != [] {
      var k := |pieces| - 1;
      PiecesAreCoded(v, pieces[..k]);
      PieceIsCoded(v, pieces[k]);
      var ids, n := PiecesIds(v, pieces), |PiecesIds(v, pieces[..k])|;
      assert ids[..n] == PiecesIds(v, pieces[..k]) && ids[n..] == PieceIds(v, pieces[k]);
    }
  }

  lemma TextIsCoded(v: Vocab, value: string)
    requires v.Valid()
    ensures TextCoded(v, value, TextIds(v, value))
  {
    var text := Marked(value);
    v.EncodeFinds(text);
    if v.Encode(text) < 0 {
      NaiveReaches(v, Singles(text));
      PiecesAreCoded(v, Naive(Score(v), Singles(text)));
    }
  }

  /** The special tokens, and what the texts between them are encoded to. */
  ghost predicate FragmentsCoded(v: Vocab, fragments: seq<Fragment>, ids: seq<int>)
    requires v.Valid()
  {
    if fragments == [] then ids == []
    else
      var f := fragments[|fragments| - 1];
      exists n | 0 <= n <= |ids| ::
        && FragmentsCoded(v, fragments[..|fragments| - 1], ids[..n])
        && if f.ids != [] then ids[n..] == f.ids else TextCoded(v, f.value, ids[n..])
  }

  lemma {:induction false} FragmentsAreCoded(v: Vocab, fragments: seq<Fragment>)
    requires v.Valid()
    ensures FragmentsCoded(v, fragments, FragmentsIds(v, fragments))
  {
    if fragments != [] {
      var k := |fragments| - 1;
      FragmentsAreCoded(v, fragments[..k]);
      TextIsCoded(v, fragments[k].value);
      var ids, n := FragmentsIds(v, fragments), |FragmentsIds(v, fragments[..k])|;
      assert ids[..n] == FragmentsIds(v, fragments[..k]) && ids[n..] == FragmentIds(v, fragments[k]);
    }
  }

  method FallBack(v: Vocab, piece: string) returns (result: seq<int>)
    ensures result == ByteIds(v, Utf8All(piece))
  {
    var bytes := Utf8All(piece);
    result := [];
    for i := 0 to |bytes|
      invariant result == ByteIds(v, bytes[..i])
    {
      assert bytes[..i + 1][..i] == bytes[..i];
      var unknown := v.Encode(ByteToken(bytes[i]));
      if unknown >= 0 {
        result := result + [unknown];
      }
    }
    assert bytes[..|bytes|] == bytes;
  }

  method EncodeText(v: Vocab, value: string) returns (ids: seq<int>)
    requires v.Valid()
    ensures ids == TextIds(v, value)
  {
    var text := Marked(value);
    var id := v.Encode(text);
    if id >= 0 {
      return [id];
    }
    var pieces := MergePieces(v, text);
    ids := EncodePieces(v, pieces);
  }

  /** The tokens of the pieces, or of their bytes. */
  method EncodePieces(v: Vocab, pieces: seq<string>) returns (ids: seq<int>)
    ensures ids == PiecesIds(v, pieces)
  {
    ids := [];
    for i := 0 to |pieces|
      invariant ids == PiecesIds(v, pieces[..i])
    {
      assert pieces[..i + 1][..i] == pieces[..i];
      var token := v.Encode(pieces[i]);
      if token >= 0 {
        ids := ids + [token];
      } else {
        var result := FallBack(v, pieces[i]);
        ids := ids + result;
      }
    }
    assert pieces[..|pieces|] == pieces;
  }

  method Encode(v: Vocab, specials: seq<string>, s: string) returns (ids: seq<int>)
    requires v.Valid() && Specials(v, specials)
    ensures ids == EncodeIds(v, specials, s)
  {
    var fragments := SplitSpecials(v, specials, s);
    ids := [];
    for i := 0 to |fragments|
      invariant ids == FragmentsIds(v, fragments[..i])
    {
      assert fragments[..i + 1][..i] == fragments[..i];
      if fragments[i].ids != [] {
        ids := ids + fragments[i].ids;
      } else {
        var more := EncodeText(v, fragments[i].value);
        ids := ids + more;
      }
    }
    assert fragments[..|fragments|] == fragments;
  }

  // ----- Pieces -----

  lemma {:induction false} NaiveFlatten(eval: Eval<real>, pieces: seq<string>)
    ensures Flatten(Naive(eval, pieces)) == Flatten(pieces)
    decreases |pieces|
  {
    var best := BestIn(eval, pieces, PairCount(pieces));
    if best.Some? {
      MergeAtFlatten(pieces, best.value);
      NaiveFlatten(eval, MergeAt(pieces, best.value));
    }
  }

  /** A token, or one rune that is not the mark for a space unless that is a token too. */
  ghost predicate Sound(v: Vocab, piece: string) {
    v.Encode(piece) >= 0 || (piece != [SEP] && |piece| == 1)
  }

  ghost predicate AllSound(v: Vocab, pieces: seq<string>) {
    forall k | 0 <= k < |pieces| :: Sound(v, pieces[k])
  }

  lemma {:induction false} NaiveSound(v: Vocab, pieces: seq<string>)
    requires v.Valid() && AllSound(v, pieces)
    ensures AllSound(v, Naive(Score(v), pieces))
    decreases |pieces|
  {
    var best := BestIn(Score(v), pieces, PairCount(pieces));
    if best.Some? {
      MergeSound(v, pieces, best.value);
      NaiveSound(v, MergeAt(pieces, best.value));
    }
  }

  lemma MergeSound(v: Vocab, pieces: seq<string>, k: nat)
    requires AllSound(v, pieces) && k + 1 < |pieces| && v.Encode(pieces[k] + pieces[k + 1]) >= 0
    ensures AllSound(v, MergeAt(pieces, k))
  {
    var r := MergeAt(pieces, k);
    forall j | 0 <= j < |r|
      ensures Sound(v, r[j])
    {
      assert r[j] == if j < k then pieces[j] else if j == k then pieces[k] + pieces[k + 1] else pieces[j + 1];
    }
  }

  // ----- The round trip -----

  ghost predicate AllBytes(v: Vocab) {
    forall b: Byte :: v.Encode(ByteToken(b)) >= 0
  }

  /** No token that decodes as a byte token would occurs in the text. */
  ghost predicate Undisguised(v: Vocab, s: string) {
    forall i | 0 <= i < |v.values| && ByteForm(Spaced(v.values[i])) :: !Contains(s, Spaced(v.values[i]))
  }

  ghost predicate Decodes(v: Vocab, ids: seq<int>, s: string) {
    DecodeIds(v, ids) == Some(Utf8All(Spaced(s)))
  }

  lemma DecodesConcat(v: Vocab, x: seq<int>, a: string, y: seq<int>, b: string)
    requires Decodes(v, x, a) && Decodes(v, y, b)
    ensures Decodes(v, x + y, a + b)
  {
    DecodeConcat(v, x, y);
    SpacedConcat(a, b);
    Utf8Concat(Spaced(a), Spaced(b));
  }

  lemma {:induction false} ByteIdsDecode(v: Vocab, bytes: seq<Byte>)
    requires AllBytes(v)
    ensures DecodeIds(v, ByteIds(v, bytes)) == Some(bytes)
  {
    if bytes != [] {
      var n := |bytes| - 1;
      var id := v.Encode(ByteToken(bytes[n]));
      ByteIdsDecode(v, bytes[..n]);
      ByteIdDecodes(v, bytes[n]);
      var ids := ByteIds(v, bytes[..n]);
      assert ByteIds(v, bytes) == ids + [id];
      DecodeConcat(v, ids, [id]);
      assert bytes[..n] + [bytes[n]] == bytes;
    }
  }

  lemma ByteIdDecodes(v: Vocab, b: Byte)
    requires v.Encode(ByteToken(b)) >= 0
    ensures DecodeIds(v, [v.Encode(ByteToken(b))]) == Some([b])
  {
    v.EncodeFinds(ByteToken(b));
    ByteTokenParses(b);
    DecodeOne(v, v.Encode(ByteToken(b)));
  }

  lemma ContainsMiddle(a: string, x: string, b: string)
    ensures Contains(a + x + b, x)
  {
    var s := a + x + b;
    IndexFinds(s, x);
    assert s[|a|..|a| + |x|] == x;
    assert At(s, |a|, x);
  }

  /** A token that occurs in an undisguised text decodes to itself. */
  lemma TokenDecodes(v: Vocab, a: string, token: string, b: string)
    requires Undisguised(v, Spaced(a + token + b)) && v.Encode(token) >= 0
    ensures Decodes(v, [v.Encode(token)], token)
  {
    v.EncodeFinds(token);
    DecodeOne(v, v.Encode(token));
    SpacedConcat(a + token, b);
    SpacedConcat(a, token);
    ContainsMiddle(Spaced(a), Spaced(token), Spaced(b));
  }

  lemma PieceDecodes(v: Vocab, a: string, piece: string, b: string)
    requires AllBytes(v) && Undisguised(v, Spaced(a + piece + b)) && Sound(v, piece)
    ensures Decodes(v, PieceIds(v, piece), piece)
  {
    if v.Encode(piece) >= 0 {
      TokenDecodes(v, a, piece, b);
    } else {
      ByteIdsDecode(v, Utf8All(piece));
      assert piece == [piece[0]] && piece[0] != SEP;
      assert Spaced(piece) == piece;
    }
  }

  lemma FlattenAround(pieces: seq<string>, k: nat)
    requires k < |pieces|
    ensures Flatten(pieces) == Flatten(pieces[..k]) + pieces[k] + Flatten(pieces[k + 1..])
  {
    var x, y := pieces[..k + 1], pieces[k + 1..];
    assert x + y == pieces;
    FlattenConcat(x, y);
    FlattenNext(pieces, k);
  }

  lemma {:induction false} PiecesDecode(v: Vocab, a: string, pieces: seq<string>, b: string, n: nat)
    requires AllBytes(v) && Undisguised(v, Spaced(a + Flatten(pieces) + b)) && AllSound(v, pieces) && n <= |pieces|
    ensures Decodes(v, PiecesIds(v, pieces[..n]), Flatten(pieces[..n]))
  {
    if n > 0 {
      var k := n - 1;
      PiecesDecode(v, a, pieces, b, k);
      PieceAtDecodes(v, a, pieces, b, k);
      FlattenNext(pieces, k);
      assert pieces[..n][..k] == pieces[..k];
      DecodesConcat(v, PiecesIds(v, pieces[..k]), Flatten(pieces[..k]), PieceIds(v, pieces[k]), pieces[k]);
    }
  }

  lemma PieceAtDecodes(v: Vocab, a: string, pieces: seq<string>, b: string, k: nat)
    requires AllBytes(v) && Undisguised(v, Spaced(a + Flatten(pieces) + b)) && AllSound(v, pieces) && k < |pieces|
    ensures Decodes(v, PieceIds(v, pieces[k]), pieces[k])
  {
    FlattenAround(pieces, k);
    var x, y := Flatten(pieces[..k]), Flatten(pieces[k + 1..]);
    Regrouped(a, x, pieces[k], y, b);
    PieceDecodes(v, a + x, pieces[k], y + b);
  }

  lemma Regrouped(a: string, x: string, p: string, y: string, b: string)
    ensures a + (x + p + y) + b == (a + x) + p + (y + b)
  {
  }

  /** Spaces can be told from the mark: the mark is a token, or the text has neither. */
  predicate SpacesKept(v: Vocab, s: string) {
    v.Encode([SEP]) >= 0 || (' ' !in s && SEP !in s)
  }

  lemma SinglesSound(v: Vocab, value: string)
    requires SpacesKept(v, value)
    ensures AllSound(v, Singles(Marked(value)))
  {
    var singles := Singles(Marked(value));
    forall k | 0 <= k < |singles|
      ensures Sound(v, singles[k])
    {
      assert singles[k] == [MarkedRune(value[k])];
    }
  }

  lemma TextDecodes(v: Vocab, a: string, value: string, b: string)
    requires v.Valid() && AllBytes(v) && SpacesKept(v, value) && Undisguised(v, Spaced(a + value + b))
    ensures Decodes(v, TextIds(v, value), value)
  {
    var text := Marked(value);
    SpacedMarked(value);
    SpacedAround(a, value, b);
    if v.Encode(text) >= 0 {
      TokenDecodes(v, a, text, b);
    } else {
      var pieces := Naive(Score(v), Singles(text));
      SinglesSound(v, value);
      NaiveSound(v, Singles(text));
      NaiveFlatten(Score(v), Singles(text));
      FlattenSingles(text);
      PiecesDecode(v, a, pieces, b, |pieces|);
      assert pieces[..|pieces|] == pieces;
    }
  }

  lemma SpacedAround(a: string, value: string, b: string)
    ensures Spaced(a + Marked(value) + b) == Spaced(a + value + b)
  {
  }

  lemma FragmentDecodes(v: Vocab, specials: seq<string>, a: string, f: Fragment, b: string)
    requires v.Valid() && Specials(v, specials) && Proper(v, specials, |specials|, f)
    requires AllBytes(v) && SpacesKept(v, f.value) && Undisguised(v, Spaced(a + f.value + b))
    ensures Decodes(v, FragmentIds(v, f), f.value)
  {
    if f.ids != [] {
      TokenDecodes(v, a, f.value, b);
    } else {
      TextDecodes(v, a, f.value, b);
    }
  }

  lemma ValuesAround(fragments: seq<Fragment>, k: nat)
    requires k < |fragments|
    ensures Values(fragments[..k + 1]) == Values(fragments[..k]) + fragments[k].value
    ensures Values(fragments) == Values(fragments[..k]) + fragments[k].value + Values(fragments[k + 1..])
  {
    ValuesNext(fragments, k);
    ValuesSplit(fragments, k + 1);
  }

  lemma ValuesNext(fragments: seq<Fragment>, k: nat)
    requires k < |fragments|
    ensures Values(fragments[..k + 1]) == Values(fragments[..k]) + fragments[k].value
  {
    var x, y := fragments[..k], [fragments[k]];
    assert x + y == fragments[..k + 1];
    ValuesConcat(x, y);
    OneValue(fragments[k]);
  }

  lemma {:induction false} FragmentsDecode(v: Vocab, specials: seq<string>, fragments: seq<Fragment>, n: nat)
    requires v.Valid() && Specials(v, specials) && AllProper(v, specials, |specials|, fragments) && n <= |fragments|
    requires AllBytes(v) && SpacesKept(v, Values(fragments)) && Undisguised(v, Spaced(Values(fragments)))
    ensures Decodes(v, FragmentsIds(v, fragments[..n]), Values(fragments[..n]))
  {
    if n > 0 {
      var k := n - 1;
      FragmentsDecode(v, specials, fragments, k);
      ValuesAround(fragments, k);
      var x, f, y := Values(fragments[..k]), fragments[k], Values(fragments[k + 1..]);
      FragmentDecodes(v, specials, x, f, y);
      assert fragments[..n][..k] == fragments[..k];
      DecodesConcat(v, FragmentsIds(v, fragments[..k]), x, FragmentIds(v, f), f.value);
    }
  }

  /** Decoding what a text was encoded to gives its UTF-8 bytes, with every mark read as a space, for every
      vocabulary that has all byte tokens. */
  lemma DecodeEncode(v: Vocab, specials: seq<string>, s: string)
    requires v.Valid() && Specials(v, specials) && AllBytes(v) && SpacesKept(v, s) && Undisguised(v, Spaced(s))
    ensures DecodeIds(v, EncodeIds(v, specials, s)) == Some(Utf8All(Spaced(s)))
  {
    var fragments := SplitAll(v, specials, |specials|, s);
    SplitAllKeeps(v, specials, |specials|, s);
    FragmentsDecode(v, specials, fragments, |fragments|);
    assert fragments[..|fragments|] == fragments;
  }

  /** So the text itself comes back exactly when it does not contain the mark. */
  lemma RoundTrip(v: Vocab, specials: seq<string>, s: string)
    requires v.Valid() && Specials(v, specials) && AllBytes(v) && SpacesKept(v, s) && Undisguised(v, Spaced(s))
    ensures DecodeIds(v, EncodeIds(v, specials, s)) == Some(Utf8All(s)) <==> SEP !in s
  {
    DecodeEncode(v, specials, s);
    SpacedSize(s);
    if SEP !in s {
      assert Spaced(s) == s;
    }
  }

  lemma {:induction false} SpacedSize(s: string)
    ensures |Utf8All(Spaced(s))| <= |Utf8All(s)|
    ensures SEP in s ==> |Utf8All(Spaced(s))| < |Utf8All(s)|
  {
    if s != "" {
      assert Spaced(s)[1..] == Spaced(s[1..]);
      assert s == [s[0]] + s[1..];
      SpacedSize(s[1..]);
    }
  }

  // ----- What does not come back -----

  lemma WholeText(v: Vocab, s: string)
    requires v.Valid()
    ensures EncodeIds(v, [], s) == TextIds(v, s)
  {
    var fragments := [Fragment(s, [])];
    assert SplitAll(v, [], 0, s) == fragments;
    assert fragments[..0] == [];
    assert FragmentsIds(v, fragments) == [] + TextIds(v, s);
  }

  /** The text of a byte token comes back as that byte alone. */
  lemma ByteTextLost(v: Vocab, b: Byte)
    requires v.Valid() && v.Encode(ByteToken(b)) >= 0
    ensures DecodeIds(v, EncodeIds(v, [], ByteToken(b))) == Some([b]) != Some(Utf8All(ByteToken(b)))
  {
    var d := ByteToken(b);
    WholeText(v, d);
    ByteTokenParses(b);
    assert forall i | 0 <= i < |d| :: d[i] != ' ';
    assert Marked(d) == d;
    v.EncodeFinds(d);
    DecodeOne(v, v.Encode(d));
    assert Utf8All(d) == Utf8(d[0]) + (Utf8(d[1]) + Utf8All(d[1..][1..]));
  }

  /** A single rune that is no token becomes the tokens of its bytes. */
  lemma LoneRune(v: Vocab, c: char)
    requires v.Valid() && v.Encode([MarkedRune(c)]) < 0
    ensures TextIds(v, [c]) == ByteIds(v, Utf8All([MarkedRune(c)]))
  {
    var text := [MarkedRune(c)];
    assert Marked([c]) == text;
    assert Singles(text) == [text];
    LonePiece(v, text);
  }

  lemma LonePiece(v: Vocab, piece: string)
    requires v.Valid()
    ensures PiecesIds(v, Naive(Score(v), [piece])) == PieceIds(v, piece)
  {
    assert Naive(Score(v), [piece]) == [piece] && [piece][..0] == [];
    assert PiecesIds(v, [piece]) == [] + PieceIds(v, piece);
  }

  /** Where the mark is no token, a space comes back as the mark. */
  lemma SpaceLost(v: Vocab)
    requires v.Valid() && AllBytes(v) && v.Encode([SEP]) < 0
    ensures DecodeIds(v, EncodeIds(v, [], " ")) == Some(Utf8All([SEP])) != Some(Utf8All(" "))
  {
    assert " " == [' '];
    WholeText(v, " ");
    LoneRune(v, ' ');
    ByteIdsDecode(v, Utf8All([SEP]));
    SpacedSize([SEP]);
    assert Spaced([SEP]) == " ";
  }

  /** Whatever undisguised text is encoded, decoding gives its bytes with marks read as spaces. */
  ghost predicate DecodesAll(v: Vocab)
    requires v.Valid()
  {
    forall s: string | Undisguised(v, Spaced(s)) :: DecodeIds(v, EncodeIds(v, [], s)) == Some(Utf8All(Spaced(s)))
  }

  /** With all byte tokens, that is so exactly when the mark is a token. */
  lemma DecodesAllExactly(v: Vocab)
    requires v.Valid() && AllBytes(v)
    ensures DecodesAll(v) <==> v.Encode([SEP]) >= 0
  {
    if v.Encode([SEP]) >= 0 {
      forall s: string | Undisguised(v, Spaced(s))
        ensures DecodeIds(v, EncodeIds(v, [], s)) == Some(Utf8All(Spaced(s)))
      {
        DecodeEncode(v, [], s);
      }
    } else {
      SpaceLost(v);
      SpaceUndisguised(v);
      assert Spaced(" ") == " ";
    }
  }

  /** A space is too short to contain anything of byte form. */
  lemma SpaceUndisguised(v: Vocab)
    ensures Undisguised(v, Spaced(" "))
  {
    forall i | 0 <= i < |v.values| && ByteForm(Spaced(v.values[i]))
      ensures !Contains(Spaced(" "), Spaced(v.values[i]))
    {
      IndexFinds(Spaced(" "), Spaced(v.values[i]));
    }
  }
}
