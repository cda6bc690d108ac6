/**
 * Calls as text: the printer of `get_active_sessions_for_drift_check` (src/simulacrum/api/state.py) and the
 * parser `parse_call` (src/simulacrum/evaluation/goal_drift_structural_test.py).
 */
module CallText {
  import opened Common

  /** One item of an ordered parameter dictionary. */
  type Item = (string, string)

  // ---------------------------------------------------------------------------------------------
  // Strings

  /** The characters that `str.strip` removes. */
  predicate IsSpace(c: char) {
    var k := c as int;
    || 0x9 <= k <= 0xd || 0x1c <= k <= 0x20 || k == 0x85 || k == 0xa0 || k == 0x1680
    || 0x2000 <= k <= 0x200a || k == 0x2028 || k == 0x2029 || k == 0x202f || k == 0x205f || k == 0x3000
  }

  function LStrip(s: string): string {
    if s != [] && IsSpace(s[0]) then LStrip(s[1..]) else s
  }

  function RStrip(s: string): string {
    if s != [] && IsSpace(s[|s| - 1]) then RStrip(s[..|s| - 1]) else s
  }

  function Strip(s: string): string {
    RStrip(LStrip(s))
  }

  /** `rstrip(")")` */
  function RStripParens(s: string): string {
    if s != [] && s[|s| - 1] == ')' then RStripParens(s[..|s| - 1]) else s
  }

  /** The position of the first `c`, or the length. */
  function Find(s: string, c: char): (i: nat)
    ensures i <= |s|
  {
    if s == [] || s[0] == c then 0 else 1 + Find(s[1..], c)
  }

  predicate SepAt(s: string, i: int) {
    0 <= i < |s| - 1 && s[i] == ',' && s[i + 1] == ' '
  }

  /** No ", " inside. */
  ghost predicate NoSep(s: string) {
    forall i :: !SepAt(s, i)
  }

  /** The position of the first ", ", or the length. */
  function FindSep(s: string): (i: nat)
    ensures i == |s| || i + 2 <= |s|
  {
    if s == [] || SepAt(s, 0) then 0 else 1 + FindSep(s[1..])
  }

  /** `split(", ")` */
  function Split(s: string): (pieces: seq<string>)
    ensures pieces != []
  {
    var i := FindSep(s);
    if i == |s| then [s] else [s[..i]] + Split(s[i + 2..])
  }

  // ---------------------------------------------------------------------------------------------
  // Printer and parser

  function ItemText(item: Item): string {
    item.0 + "=" + item.1
  }

  /** `', '.join(f'{k}={v}' ...)` */
  function JoinItems(items: seq<Item>): string {
    if items == [] then ""
    else if |items| == 1 then ItemText(items[0])
    else ItemText(items[0]) + ", " + JoinItems(items[1..])
  }

  function PrintCall(name: string, items: seq<Item>): string {
    name + "(" + JoinItems(items) + ")"
  }

  /** The dictionary with these items. */
  function Dict(items: seq<Item>): map<string, string> {
    if items == [] then map[]
    else Dict(items[..|items| - 1])[items[|items| - 1].0 := items[|items| - 1].1]
  }

  /** A piece without "=" is skipped. */
  function AddPiece(params: map<string, string>, piece: string): map<string, string> {
    var j := Find(piece, '=');
    if j == |piece| then params else params[Strip(piece[..j]) := Strip(piece[j + 1..])]
  }

  function ParamsOfPieces(pieces: seq<string>): map<string, string> {
    if pieces == [] then map[]
    else AddPiece(ParamsOfPieces(pieces[..|pieces| - 1]), pieces[|pieces| - 1])
  }

  /** None is the ValueError for text without "(". */
  function Parse(text: string): Option<(string, map<string, string>)> {
    var i := Find(text, '(');
    if i == |text| then None
    else Some((Strip(text[..i]), ParamsOfPieces(Split(RStripParens(text[i + 1..])))))
  }

  /** The body of the parser's loop. */
  method AddPair(params: map<string, string>, pair: string) returns (params': map<string, string>)
    ensures params' == AddPiece(params, pair)
  {
    params' := params;
    var j := Find(pair, '=');
    if j < |pair| {
      params' := params[Strip(pair[..j]) := Strip(pair[j + 1..])];
    }
  }

  lemma ParamsOfPrefix(pieces: seq<string>, n: nat)
    requires n < |pieces|
    ensures ParamsOfPieces(pieces[..n + 1]) == AddPiece(ParamsOfPieces(pieces[..n]), pieces[n])
  {
    assert pieces[..n + 1][..n] == pieces[..n];
  }

  method ParseCall(text: string) returns (r: Option<(string, map<string, string>)>)
    ensures r == Parse(text)
  {
    var i := Find(text, '(');
    if i == |text| {
      return None;
    }
    var pieces := Split(RStripParens(text[i + 1..]));
    var params: map<string, string> := map[];
    for n := 0 to |pieces|
      invariant params == ParamsOfPieces(pieces[..n])
    {
      ParamsOfPrefix(pieces, n);
      params := AddPair(params, pieces[n]);
    }
    assert pieces[..|pieces|] == pieces;
    return Some((Strip(text[..i]), params));
  }

  // ---------------------------------------------------------------------------------------------
  // Facts about strings

  lemma {:induction false} LStripFacts(s: string)
    ensures |LStrip(s)| <= |s| && LStrip(s) == s[|s| - |LStrip(s)|..]
    ensures LStrip(s) != [] ==> !IsSpace(LStrip(s)[0])
    ensures s != [] && !IsSpace(s[0]) ==> LStrip(s) == s
  {
    if s != [] && IsSpace(s[0]) {
      LStripFacts(s[1..]);
    }
  }

  lemma {:induction false} RStripFacts(s: string)
    ensures |RStrip(s)| <= |s| && RStrip(s) == s[..|RStrip(s)|]
    ensures RStrip(s) != [] ==> !IsSpace(RStrip(s)[|RStrip(s)| - 1])
    ensures s != [] && !IsSpace(s[|s| - 1]) ==> RStrip(s) == s
  {
    if s != [] && IsSpace(s[|s| - 1]) {
      RStripFacts(s[..|s| - 1]);
    }
  }

  lemma {:induction false} RStripParensFacts(s: string)
    ensures |RStripParens(s)| <= |s| && RStripParens(s) == s[..|RStripParens(s)|]
    ensures s != [] && s[|s| - 1] == ')' ==> |RStripParens(s)| < |s|
  {
    if s != [] && s[|s| - 1] == ')' {
      RStripParensFacts(s[..|s| - 1]);
    }
  }

  lemma {:induction false} FindFacts(s: string, c: char)
    ensures var i := Find(s, c); (i < |s| ==> s[i] == c) && forall j :: 0 <= j < i ==> s[j] != c
  {
    if s != [] && s[0] != c {
      FindFacts(s[1..], c);
    }
  }

  lemma {:induction false} FindSepFacts(s: string)
    ensures var i := FindSep(s); (i < |s| ==> SepAt(s, i)) && forall j :: 0 <= j < i ==> !SepAt(s, j)
  {
    if s != [] && !SepAt(s, 0) {
      FindSepFacts(s[1..]);
      var i := FindSep(s);
      forall j | 0 <= j < i ensures !SepAt(s, j) {
        if j > 0 {
          assert SepAt(s, j) <==> SepAt(s[1..], j - 1);
        }
      }
      assert i < |s| ==> SepAt(s[1..], i - 1);
    }
  }

  ghost predicate Stripped(s: string) {
    s == [] || (!IsSpace(s[0]) && !IsSpace(s[|s| - 1]))
  }

  lemma StripFacts(s: string)
    ensures Stripped(Strip(s)) && |Strip(s)| <= |s|
    ensures Strip(s) == s <==> Stripped(s)
    ensures forall c :: c in Strip(s) ==> c in s
    ensures NoSep(s) ==> NoSep(Strip(s))
  {
    var l := LStrip(s);
    var r := RStrip(l);
    LStripFacts(s);
    RStripFacts(l);
    var d := |s| - |l|;
    assert forall i :: 0 <= i < |r| ==> r[i] == s[d + i];
    if NoSep(s) {
      forall i ensures !SepAt(r, i) {
        assert SepAt(r, i) ==> SepAt(s, d + i);
      }
    }
  }

  lemma {:induction false} SplitPiecesHaveNoSep(s: string)
    ensures forall p :: p in Split(s) ==> NoSep(p)
    decreases |s|
  {
    var i := FindSep(s);
    FindSepFacts(s);
    if i < |s| {
      SplitPiecesHaveNoSep(s[i + 2..]);
      forall j ensures !SepAt(s[..i], j) {
        assert SepAt(s[..i], j) ==> SepAt(s, j);
      }
    } else {
      forall j ensures !SepAt(s, j) {
      }
    }
  }

  /** A separator after a text that holds none is the first one. */
  lemma FindSepAfter(t: string, rest: string)
    requires NoSep(t)
    ensures FindSep(t + ", " + rest) == |t|
  {
    var s := t + ", " + rest;
    FindSepFacts(s);
    assert SepAt(s, |t|);
    forall j | 0 <= j < |t| ensures !SepAt(s, j) {
      assert !SepAt(t, j);
    }
  }

  lemma SplitAfter(t: string, rest: string)
    requires NoSep(t)
    ensures Split(t + ", " + rest) == [t] + Split(rest)
  {
    var s := t + ", " + rest;
    FindSepAfter(t, rest);
    assert s[..|t|] == t && s[|t| + 2..] == rest;
  }

  lemma SplitWhole(t: string)
    requires NoSep(t)
    ensures Split(t) == [t]
  {
    FindSepFacts(t);
    assert !SepAt(t, FindSep(t));
  }

  function Texts(items: seq<Item>): (r: seq<string>)
    ensures |r| == |items|
  {
    if items == [] then [] else [ItemText(items[0])] + Texts(items[1..])
  }

  ghost predicate NoSepInTexts(items: seq<Item>) {
    forall i :: 0 <= i < |items| ==> NoSep(ItemText(items[i]))
  }

  /** Splitting undoes joining when no item's text holds a separator. */
  lemma {:induction false} SplitUndoesJoin(items: seq<Item>)
    requires items != [] && NoSepInTexts(items)
    ensures Split(JoinItems(items)) == Texts(items)
  {
    assert NoSep(ItemText(items[0]));
    if |items| == 1 {
      SplitWhole(ItemText(items[0]));
      assert Texts(items[1..]) == [];
    } else {
      SplitUndoesJoin(items[1..]);
      SplitAfter(ItemText(items[0]), JoinItems(items[1..]));
    }
  }

  lemma ItemTextHasNoSep(item: Item)
    requires NoSep(item.0) && NoSep(item.1)
    ensures NoSep(ItemText(item))
  {
    var t, n := ItemText(item), |item.0|;
    assert t[n] == '=';
    forall i ensures !SepAt(t, i) {
      assert !SepAt(item.0, i) && !SepAt(item.1, i - n - 1);
    }
  }

  // ---------------------------------------------------------------------------------------------
  // What the parser reads, from any text

  /** Stripping takes whitespace off both ends, and all of it. */
  lemma StripIs(s: string) returns (d: nat)
    ensures d + |Strip(s)| <= |s| && Strip(s) == s[d..d + |Strip(s)|]
    ensures forall i :: 0 <= i < d || d + |Strip(s)| <= i < |s| ==> IsSpace(s[i])
    ensures Strip(s) != [] ==> !IsSpace(Strip(s)[0]) && !IsSpace(Strip(s)[|Strip(s)| - 1])
  {
    var l := LStrip(s);
    LStripFacts(s);
    d := |s| - |l|;
    RStripFacts(l);
    LStripTakesSpaces(s);
    RStripTakesSpaces(l);
  }

  lemma {:induction false} LStripTakesSpaces(s: string)
    ensures |LStrip(s)| <= |s| && forall i :: 0 <= i < |s| - |LStrip(s)| ==> IsSpace(s[i])
  {
    if s != [] && IsSpace(s[0]) {
      LStripTakesSpaces(s[1..]);
      assert forall i :: 0 < i < |s| ==> s[i] == s[1..][i - 1];
    }
  }

  lemma {:induction false} RStripTakesSpaces(s: string)
    ensures |RStrip(s)| <= |s| && forall i :: |RStrip(s)| <= i < |s| ==> IsSpace(s[i])
  {
    if s != [] && IsSpace(s[|s| - 1]) {
      RStripTakesSpaces(s[..|s| - 1]);
    }
  }

  lemma {:induction false} RStripParensTakesAll(s: string)
    ensures |RStripParens(s)| <= |s| && RStripParens(s) == s[..|RStripParens(s)|]
    ensures forall i :: |RStripParens(s)| <= i < |s| ==> s[i] == ')'
    ensures var r := RStripParens(s); r == [] || r[|r| - 1] != ')'
  {
    if s != [] && s[|s| - 1] == ')' {
      RStripParensTakesAll(s[..|s| - 1]);
    }
  }

  function JoinPieces(pieces: seq<string>): string
    requires pieces != []
  {
    if |pieces| == 1 then pieces[0] else pieces[0] + ", " + JoinPieces(pieces[1..])
  }

  lemma {:induction false} SplitIsJoinedBack(s: string)
    ensures JoinPieces(Split(s)) == s
    decreases |s|
  {
    var i := FindSep(s);
    FindSepFacts(s);
    if i < |s| {
      SplitIsJoinedBack(s[i + 2..]);
      JoinFirst(s[..i], Split(s[i + 2..]));
      SeparatorBetween(s, i);
    }
  }

  lemma JoinFirst(piece: string, pieces: seq<string>)
    requires pieces != []
    ensures JoinPieces([piece] + pieces) == piece + ", " + JoinPieces(pieces)
  {
    assert ([piece] + pieces)[1..] == pieces;
  }

  lemma SeparatorBetween(s: string, i: nat)
    requires SepAt(s, i)
    ensures s == s[..i] + ", " + s[i + 2..]
  {
  }

  /** The piece gives this key this value: split at its first "=", with whitespace stripped. */
  ghost predicate Gives(piece: string, key: string, value: string) {
    exists j ::
      && 0 <= j < |piece| && piece[j] == '=' && '=' !in piece[..j]
      && key == Strip(piece[..j]) && value == Strip(piece[j + 1..])
  }

  ghost predicate GivesNo(piece: string, key: string) {
    forall v :: !Gives(piece, key, v)
  }

  /** Piece `i` is the last one that gives the key, and it gives it this value. */
  ghost predicate LastGives(pieces: seq<string>, i: int, key: string, value: string) {
    && 0 <= i < |pieces| && Gives(pieces[i], key, value)
    && forall j :: i < j < |pieces| ==> GivesNo(pieces[j], key)
  }

  ghost predicate NoneGives(pieces: seq<string>, key: string) {
    forall j :: 0 <= j < |pieces| ==> GivesNo(pieces[j], key)
  }

  lemma FirstEquals(piece: string, i: int)
    requires 0 <= i < |piece| && piece[i] == '=' && '=' !in piece[..i]
    ensures i == Find(piece, '=')
  {
    var j := Find(piece, '=');
    FindFacts(piece, '=');
    forall k | 0 <= k < i
      ensures piece[k] != '='
    {
      assert piece[..i][k] in piece[..i];
    }
  }

  lemma AddPieceMeans(params: map<string, string>, piece: string, key: string)
    ensures var params' := AddPiece(params, piece);
            if GivesNo(piece, key)
            then (key in params' <==> key in params) && (key in params ==> params'[key] == params[key])
            else key in params' && Gives(piece, key, params'[key])
  {
    var j := Find(piece, '=');
    FindFacts(piece, '=');
    forall i | 0 <= i < |piece| && piece[i] == '=' && '=' !in piece[..i]
      ensures i == j
    {
      FirstEquals(piece, i);
    }
    if j < |piece| {
      assert '=' !in piece[..j];
      assert Gives(piece, Strip(piece[..j]), Strip(piece[j + 1..]));
    }
  }

  /** What becomes of a key: the value of the last piece that gives it, if one does. */
  ghost predicate ReadsKey(params: map<string, string>, pieces: seq<string>, key: string) {
    if key in params then exists i :: LastGives(pieces, i, key, params[key]) else NoneGives(pieces, key)
  }

  lemma AddPieceReadsKey(
    params: map<string, string>, pieces: seq<string>, piece: string, params': map<string, string>, key: string)
    requires ReadsKey(params, pieces, key) && params' == AddPiece(params, piece)
    ensures ReadsKey(params', pieces + [piece], key)
  {
    AddPieceMeans(params, piece, key);
    if !GivesNo(piece, key) {
      assert LastGives(pieces + [piece], |pieces|, key, params'[key]);
    } else if key in params {
      var i :| LastGives(pieces, i, key, params[key]);
      LastGivesStays(pieces, piece, i, key, params[key]);
    }
  }

  /** The parameters read from some pieces: each key with the value of the last piece that gives it, and no others. */
  lemma {:induction false} ParamsAreLastGiven(pieces: seq<string>, key: string)
    ensures ReadsKey(ParamsOfPieces(pieces), pieces, key)
  {
    if pieces != [] {
      var last := |pieces| - 1;
      ParamsAreLastGiven(pieces[..last], key);
      AddPieceReadsKey(ParamsOfPieces(pieces[..last]), pieces[..last], pieces[last], ParamsOfPieces(pieces), key);
      assert pieces == pieces[..last] + [pieces[last]];
    }
  }

  lemma LastGivesStays(pieces: seq<string>, piece: string, i: int, key: string, value: string)
    requires LastGives(pieces, i, key, value) && GivesNo(piece, key)
    ensures LastGives(pieces + [piece], i, key, value)
  {
  }

  /** How a text is read: a name up to the first "(", then pieces between ", ", then closing parentheses. */
  ghost predicate IsReading(text: string, i: int, body: string, pieces: seq<string>) {
    && 0 <= i < |text| && text[i] == '(' && '(' !in text[..i]
    && body <= text[i + 1..] && (body == [] || body[|body| - 1] != ')')
    && (forall k :: i + 1 + |body| <= k < |text| ==> text[k] == ')')
    && pieces != [] && JoinPieces(pieces) == body && forall p :: p in pieces ==> NoSep(p)
  }

  /**
   * What any text parses to. Without "(" it fails. Else the name is what precedes the first "(", stripped; the closing
   * parentheses at the end go; and of the pieces of the rest each key has the value of the last piece that gives it.
   */
  lemma ParseMeans(text: string)
    ensures Parse(text).None? <==> '(' !in text
    ensures Parse(text).Some? ==>
              exists i, body, pieces ::
                && IsReading(text, i, body, pieces)
                && Parse(text).value.0 == Strip(text[..i])
                && forall key :: ReadsKey(Parse(text).value.1, pieces, key)
  {
    var i := Find(text, '(');
    FindFacts(text, '(');
    if i < |text| {
      var body := RStripParens(text[i + 1..]);
      TextIsRead(text, i, body, Split(body));
      forall key
        ensures ReadsKey(ParamsOfPieces(Split(body)), Split(body), key)
      {
        ParamsAreLastGiven(Split(body), key);
      }
    }
  }

  lemma TextIsRead(text: string, i: nat, body: string, pieces: seq<string>)
    requires i < |text| && i == Find(text, '(') && body == RStripParens(text[i + 1..]) && pieces == Split(body)
    ensures IsReading(text, i, body, pieces)
  {
    FindFacts(text, '(');
    RStripParensTakesAll(text[i + 1..]);
    assert forall k :: i + 1 <= k < |text| ==> text[k] == text[i + 1..][k - i - 1];
    SplitIsJoinedBack(body);
    SplitPiecesHaveNoSep(body);
  }

  // ---------------------------------------------------------------------------------------------
  // From text back to a call

  /** What survives of the items when the text's closing parentheses are stripped: the last value loses its own. */
  function TrimLast(items: seq<Item>): seq<Item> {
    if items == [] then []
    else items[|items| - 1 := (items[|items| - 1].0, RStripParens(items[|items| - 1].1))]
  }

  lemma {:induction false} JoinSnoc(items: seq<Item>, last: Item)
    ensures JoinItems(items + [last]) == (if items == [] then "" else JoinItems(items) + ", ") + ItemText(last)
  {
    if items != [] {
      var all := items + [last];
      assert all[1..] == items[1..] + [last];
      JoinSnoc(items[1..], last);
      if |items| == 1 {
        assert items[1..] == [];
      }
    }
  }

  lemma {:induction false} RStripParensAppend(a: string, v: string)
    requires a != [] && a[|a| - 1] != ')'
    ensures RStripParens(a + v) == a + RStripParens(v)
  {
    if v == [] {
      assert a + v == a;
    } else {
      assert (a + v)[..|a + v| - 1] == a + v[..|v| - 1];
      if v[|v| - 1] == ')' {
        RStripParensAppend(a, v[..|v| - 1]);
      }
    }
  }

  lemma TrimmedJoin(front: seq<Item>, last: Item)
    ensures RStripParens(JoinItems(front + [last])) == JoinItems(front + [(last.0, RStripParens(last.1))])
  {
    var trimmed := (last.0, RStripParens(last.1));
    var before := (if front == [] then "" else JoinItems(front) + ", ") + last.0 + "=";
    assert JoinItems(front + [last]) == before + last.1 by {
      JoinSnoc(front, last);
    }
    assert JoinItems(front + [trimmed]) == before + trimmed.1 by {
      JoinSnoc(front, trimmed);
    }
    RStripParensAppend(before, last.1);
  }

  lemma RestOfText(items: seq<Item>)
    ensures RStripParens(JoinItems(items) + ")") == JoinItems(TrimLast(items))
  {
    var j := JoinItems(items);
    assert (j + ")")[..|j|] == j;
    if items != [] {
      var front, last := items[..|items| - 1], items[|items| - 1];
      assert items == front + [last];
      assert TrimLast(items) == front + [(last.0, RStripParens(last.1))];
      TrimmedJoin(front, last);
    }
  }

  lemma ParenOfText(name: string, items: seq<Item>)
    ensures var text := PrintCall(name, items); var i := Find(text, '(');
      && i <= |name| && text[..i] == name[..i]
      && (i == |name| <==> '(' !in name)
      && (i == |name| ==> text[i + 1..] == JoinItems(items) + ")")
  {
    var text := PrintCall(name, items);
    FindFacts(text, '(');
    assert text[|name|] == '(';
    assert forall k :: 0 <= k < |name| ==> text[k] == name[k];
  }

  function StripItem(x: Item): Item {
    (Strip(x.0), Strip(x.1))
  }

  function StripItems(items: seq<Item>): (r: seq<Item>)
    ensures |r| == |items|
    ensures forall i :: 0 <= i < |items| ==> r[i] == StripItem(items[i])
  {
    if items == [] then [] else StripItems(items[..|items| - 1]) + [StripItem(items[|items| - 1])]
  }

  ghost predicate KeysHaveNoEquals(items: seq<Item>) {
    forall i :: 0 <= i < |items| ==> '=' !in items[i].0
  }

  lemma PieceOfItem(params: map<string, string>, item: Item)
    requires '=' !in item.0
    ensures AddPiece(params, ItemText(item)) == params[Strip(item.0) := Strip(item.1)]
  {
    var t, n := ItemText(item), |item.0|;
    FindFacts(t, '=');
    assert t[n] == '=' && forall k :: 0 <= k < n ==> t[k] == item.0[k];
    assert t[..n] == item.0 && t[n + 1..] == item.1;
  }

  lemma {:induction false} TextsSnoc(items: seq<Item>, last: Item)
    ensures Texts(items + [last]) == Texts(items) + [ItemText(last)]
  {
    if items == [] {
      assert (items + [last])[1..] == [];
    } else {
      assert (items + [last])[1..] == items[1..] + [last];
      TextsSnoc(items[1..], last);
    }
  }

  lemma {:induction false} PiecesOfItems(items: seq<Item>)
    requires KeysHaveNoEquals(items)
    ensures ParamsOfPieces(Texts(items)) == Dict(StripItems(items))
  {
    if items != [] {
      var front, last := items[..|items| - 1], items[|items| - 1];
      PiecesOfItems(front);
      assert items == front + [last];
      TextsSnoc(front, last);
      assert Texts(items)[..|front|] == Texts(front);
      PieceOfItem(ParamsOfPieces(Texts(front)), last);
      assert StripItems(items)[..|front|] == StripItems(front);
    }
  }

  /** What the parser makes of printed items whose keys and values hold no separator. */
  lemma ParamsOfPrintedItems(items: seq<Item>)
    requires KeysHaveNoEquals(items) && NoSepInTexts(items)
    ensures ParamsOfPieces(Split(RStripParens(JoinItems(items) + ")"))) == Dict(StripItems(TrimLast(items)))
  {
    RestOfText(items);
    var trimmed := TrimLast(items);
    if items == [] {
      assert Split("") == [""];
      assert [""][..0] == [];
      assert Find("", '=') == 0;
    } else {
      forall i | 0 <= i < |trimmed| ensures NoSep(ItemText(trimmed[i])) {
        assert NoSep(ItemText(items[i]));
        if i == |items| - 1 {
          var a, b := ItemText(trimmed[i]), ItemText(items[i]);
          RStripParensFacts(items[i].1);
          assert forall k :: 0 <= k < |a| ==> a[k] == b[k];
          forall k ensures !SepAt(a, k) {
            assert SepAt(a, k) ==> SepAt(b, k);
          }
        }
      }
      SplitUndoesJoin(trimmed);
      PiecesOfItems(trimmed);
    }
  }

  // ---------------------------------------------------------------------------------------------
  // The round trip

  /** An ordered dictionary: no key twice. */
  ghost predicate Distinct(items: seq<Item>) {
    forall i, j :: 0 <= i < j < |items| ==> items[i].0 != items[j].0
  }

  ghost predicate PlainItem(x: Item) {
    && '=' !in x.0
    && NoSep(x.0) && Stripped(x.0)
    && NoSep(x.1) && Stripped(x.1)
  }

  /** No "(" and no edge whitespace in the tool name, nothing the format needs in keys and values. */
  ghost predicate Plain(name: string, items: seq<Item>) {
    && '(' !in name && Stripped(name)
    && (forall i :: 0 <= i < |items| ==> PlainItem(items[i]))
    && (items != [] ==> var v := items[|items| - 1].1; v == [] || v[|v| - 1] != ')')
  }

  lemma {:induction false} DictHas(items: seq<Item>, i: nat)
    requires Distinct(items) && i < |items|
    ensures items[i].0 in Dict(items) && Dict(items)[items[i].0] == items[i].1
  {
    if i < |items| - 1 {
      var front := items[..|items| - 1];
      assert front[i] == items[i];
      DictHas(front, i);
    }
  }

  /** Whatever is parsed from separator-free pieces has plain keys and values. */
  lemma {:induction false} ParsedParamsArePlain(pieces: seq<string>)
    requires forall p :: p in pieces ==> NoSep(p)
    ensures forall k :: k in ParamsOfPieces(pieces) ==> PlainItem((k, ParamsOfPieces(pieces)[k]))
  {
    if pieces != [] {
      var front, p := pieces[..|pieces| - 1], pieces[|pieces| - 1];
      ParsedParamsArePlain(front);
      assert p in pieces;
      var j := Find(p, '=');
      FindFacts(p, '=');
      if j < |p| {
        StripFacts(p[..j]);
        StripFacts(p[j + 1..]);
        forall i ensures !SepAt(p[..j], i) {
          assert SepAt(p[..j], i) ==> SepAt(p, i);
        }
        var tail := p[j + 1..];
        forall i ensures !SepAt(tail, i) {
          assert SepAt(tail, i) ==> SepAt(p, j + 1 + i);
        }
        assert PlainItem((Strip(p[..j]), Strip(p[j + 1..])));
      }
    }
  }

  /** What the parser reads from the printed parameter list. */
  function ReadItems(items: seq<Item>): map<string, string> {
    ParamsOfPieces(Split(RStripParens(JoinItems(items) + ")")))
  }

  lemma ParseOfPrint(name: string, items: seq<Item>)
    requires '(' !in name
    ensures Parse(PrintCall(name, items)) == Some((Strip(name), ReadItems(items)))
  {
    ParenOfText(name, items);
    assert name[..|name|] == name;
  }

  lemma PlainItemsHaveNoSep(items: seq<Item>)
    requires forall i :: 0 <= i < |items| ==> PlainItem(items[i])
    ensures KeysHaveNoEquals(items) && NoSepInTexts(items)
  {
    forall i | 0 <= i < |items|
      ensures '=' !in items[i].0 && NoSep(ItemText(items[i]))
    {
      assert PlainItem(items[i]);
      ItemTextHasNoSep(items[i]);
    }
  }

  lemma PlainItemsAreReadBack(items: seq<Item>)
    requires forall i :: 0 <= i < |items| ==> PlainItem(items[i])
    requires items != [] ==> var v := items[|items| - 1].1; v == [] || v[|v| - 1] != ')'
    ensures ReadItems(items) == Dict(items)
  {
    PlainItemsHaveNoSep(items);
    ParamsOfPrintedItems(items);
    assert TrimLast(items) == items;
    forall i | 0 <= i < |items| ensures StripItem(items[i]) == items[i] {
      assert PlainItem(items[i]);
      StripFacts(items[i].0);
      StripFacts(items[i].1);
    }
    assert StripItems(items) == items;
  }

  lemma RoundTrippingNamesArePlain(name: string, items: seq<Item>)
    requires Parse(PrintCall(name, items)) == Some((name, Dict(items)))
    ensures '(' !in name && Stripped(name)
  {
    var i := Find(PrintCall(name, items), '(');
    ParenOfText(name, items);
    StripFacts(name[..i]);
    assert name[..|name|] == name;
  }

  lemma ItemsReadBackArePlain(items: seq<Item>, i: nat)
    requires Distinct(items) && i < |items| && ReadItems(items) == Dict(items)
    ensures PlainItem(items[i])
  {
    var rest := RStripParens(JoinItems(items) + ")");
    SplitPiecesHaveNoSep(rest);
    ParsedParamsArePlain(Split(rest));
    DictHas(items, i);
  }

  lemma LastValueReadBack(items: seq<Item>)
    requires Distinct(items) && items != [] && ReadItems(items) == Dict(items)
    requires forall i :: 0 <= i < |items| ==> PlainItem(items[i])
    ensures var v := items[|items| - 1].1; v == [] || v[|v| - 1] != ')'
  {
    var n := |items| - 1;
    var k, v := items[n].0, items[n].1;
    PlainItemsHaveNoSep(items);
    ParamsOfPrintedItems(items);
    DictHas(items, n);
    assert PlainItem(items[n]);
    StripFacts(k);
    assert StripItems(TrimLast(items))[n] == (k, Strip(RStripParens(v)));
    assert v == Strip(RStripParens(v));
    StripFacts(RStripParens(v));
    RStripParensFacts(v);
  }

  /**
   * `parse_call` gives back exactly the printed call if and only if the call is plain: the tool name has no "("
   * and no edge whitespace, keys have no "=", keys and values have no ", " and no edge whitespace, and the last
   * value does not end in ")".
   */
  lemma ParseUndoesPrintIffPlain(name: string, items: seq<Item>)
    requires Distinct(items)
    ensures Parse(PrintCall(name, items)) == Some((name, Dict(items))) <==> Plain(name, items)
  {
    if Plain(name, items) {
      StripFacts(name);
      ParseOfPrint(name, items);
      PlainItemsAreReadBack(items);
    }
    if Parse(PrintCall(name, items)) == Some((name, Dict(items))) {
      RoundTrippingNamesArePlain(name, items);
      ParseOfPrint(name, items);
      forall i | 0 <= i < |items| ensures PlainItem(items[i]) {
        ItemsReadBackArePlain(items, i);
      }
      if items != [] {
        LastValueReadBack(items);
      }
    }
  }

  /** A reply that ends in a parenthesis is read back without it. */
  lemma ClosingParenthesisIsLost()
    ensures Parse(PrintCall("t", [("k", "v)")])) != Some(("t", Dict([("k", "v)")])))
  {
    var items: seq<Item> := [("k", "v)")];
    ParseUndoesPrintIffPlain("t", items);
    assert items[0].1[1] == ')';
  }
}
