/** Command-line text as the gateway builds and splits it.

    The gateway writes every external command as a `str.format` template,
    fills in its fields, and hands the result to `shlex.split` before running
    it. This module models both halves: `Format` over a template made of
    literal text and named fields, and `Split`, which cuts a string into
    words at whitespace. `Split` does not interpret quotes or backslashes;
    `IsToken` names the words on which it agrees with `shlex.split`.
 */
module CommandLine {
  import opened Options

  /** The characters `shlex.split` treats as word separators. */
  predicate IsBlank(c: char) {
    c == ' ' || c == '\t' || c == '\n' || c == '\r'
  }

  /** Characters that `shlex.split` gives a meaning other than "part of a word". */
  predicate IsSpecial(c: char) {
    c == '"' || c == '\'' || c == '\\'
  }

  /** A word that splits back to itself: non-empty, no separator, no quoting. */
  predicate IsToken(w: string) {
    && |w| > 0
    && forall i :: 0 <= i < |w| ==> !IsBlank(w[i]) && !IsSpecial(w[i])
  }

  /** The longest prefix of `s` that holds no separator. */
  function Word(s: string): (w: string)
    ensures |w| <= |s| && w == s[..|w|]
    ensures forall i :: 0 <= i < |w| ==> !IsBlank(w[i])
    ensures |w| < |s| ==> IsBlank(s[|w|])
    ensures |s| > 0 && !IsBlank(s[0]) ==> |w| > 0
  {
    if |s| == 0 || IsBlank(s[0]) then "" else [s[0]] + Word(s[1..])
  }

  /** The words of `s`, separators dropped, empty words never produced. */
  function Split(s: string): (ws: seq<string>)
    ensures forall i :: 0 <= i < |ws| ==> |ws[i]| > 0
    ensures forall i, k :: 0 <= i < |ws| && 0 <= k < |ws[i]| ==> !IsBlank(ws[i][k])
    ensures (forall k :: 0 <= k < |s| ==> IsBlank(s[k])) <==> ws == []
    decreases |s|
  {
    if |s| == 0 then []
    else if IsBlank(s[0]) then Split(s[1..])
    else
      var w := Word(s);
      [w] + Split(s[|w|..])
  }

  /** The words of `ws` with one space between neighbours. */
  function Join(ws: seq<string>): string {
    if |ws| == 0 then ""
    else if |ws| == 1 then ws[0]
    else ws[0] + " " + Join(ws[1..])
  }

  /** Two words joined by one space. */
  lemma JoinPair(x: string, y: string)
    ensures Join([x, y]) == x + " " + y
  {
    assert [x, y][1..] == [y];
  }

  /** A non-empty word whose every character is plain is a token. */
  lemma TokenByChars(w: string)
    requires |w| > 0
    requires forall c | c in w :: !IsBlank(c) && !IsSpecial(c)
    ensures IsToken(w)
  {
    forall i | 0 <= i < |w|
      ensures !IsBlank(w[i]) && !IsSpecial(w[i])
    {
      assert w[i] in w;
    }
  }

  /** Joining two non-empty lists puts one space between their joins. */
  lemma {:induction false} JoinAppend(a: seq<string>, b: seq<string>)
    requires |a| > 0 && |b| > 0
    ensures Join(a + b) == Join(a) + " " + Join(b)
    decreases |a|
  {
    assert (a + b)[0] == a[0];
    if |a| > 1 {
      assert (a + b)[1..] == a[1..] + b;
      JoinAppend(a[1..], b);
    } else {
      assert (a + b)[1..] == b;
    }
  }

  lemma {:induction false} WordOfToken(w: string, rest: string)
    requires IsToken(w)
    requires |rest| == 0 || IsBlank(rest[0])
    ensures Word(w + rest) == w
    decreases |w|
  {
    var s := w + rest;
    assert s[0] == w[0];
    if |w| == 1 {
      assert s[1..] == rest;
      assert Word(rest) == "";
    } else {
      assert s[1..] == w[1..] + rest;
      assert IsToken(w[1..]) by {
        forall i | 0 <= i < |w[1..]|
          ensures !IsBlank(w[1..][i]) && !IsSpecial(w[1..][i])
        {
          assert w[1..][i] == w[i + 1];
        }
      }
      WordOfToken(w[1..], rest);
      assert [w[0]] + w[1..] == w;
    }
  }

  /** A token followed by a space splits off as the first word. */
  lemma SplitCons(w: string, rest: string)
    requires IsToken(w)
    ensures Split(w + " " + rest) == [w] + Split(rest)
  {
    var s := w + " " + rest;
    WordOfToken(w, " " + rest);
    assert w + (" " + rest) == s;
    assert s[|w|..] == " " + rest;
    assert (" " + rest)[1..] == rest;
  }

  /** A token on its own splits to itself. */
  lemma SplitToken(w: string)
    requires IsToken(w)
    ensures Split(w) == [w]
  {
    WordOfToken(w, "");
    assert w + "" == w;
    assert w[|w|..] == "";
  }

  /** Splitting a space-joined list of tokens gives the list back. */
  lemma {:induction false} SplitJoin(ws: seq<string>)
    requires forall i :: 0 <= i < |ws| ==> IsToken(ws[i])
    ensures Split(Join(ws)) == ws
    decreases |ws|
  {
    if |ws| == 0 {
    } else if |ws| == 1 {
      SplitToken(ws[0]);
    } else {
      SplitCons(ws[0], Join(ws[1..]));
      SplitJoin(ws[1..]);
      assert [ws[0]] + ws[1..] == ws;
    }
  }

  /** Tokens joined by spaces, then a space and more text: the tokens split
      off as the leading words. */
  lemma {:induction false} SplitJoinThen(ws: seq<string>, rest: string)
    requires |ws| > 0
    requires forall i :: 0 <= i < |ws| ==> IsToken(ws[i])
    ensures Split(Join(ws) + " " + rest) == ws + Split(rest)
    decreases |ws|
  {
    if |ws| == 1 {
      SplitCons(ws[0], rest);
    } else {
      var tail := Join(ws[1..]);
      calc {
        Split(Join(ws) + " " + rest);
        { assert Join(ws) + " " + rest == ws[0] + " " + (tail + " " + rest); }
        Split(ws[0] + " " + (tail + " " + rest));
        { SplitCons(ws[0], tail + " " + rest); }
        [ws[0]] + Split(tail + " " + rest);
        { SplitJoinThen(ws[1..], rest); }
        [ws[0]] + (ws[1..] + Split(rest));
        { assert [ws[0]] + ws[1..] == ws; }
        ws + Split(rest);
      }
    }
  }

  /** One piece of a `str.format` template. */
  datatype Piece = Text(text: string) | Field(name: string)

  /** The names a template refers to. */
  function FieldNames(t: seq<Piece>): set<string> {
    if |t| == 0 then {}
    else if t[0].Field? then {t[0].name} + FieldNames(t[1..])
    else FieldNames(t[1..])
  }

  /** `template.format(**fields)`: `None` models the `KeyError` raised for a
      field that is not supplied. */
  function Format(t: seq<Piece>, fields: map<string, string>): (r: Option<string>)
    ensures r.Some? <==> FieldNames(t) <= fields.Keys
  {
    if |t| == 0 then Some("")
    else
      var head := match t[0]
        case Text(s) => Some(s)
        case Field(n) => if n in fields then Some(fields[n]) else None;
      var tail := Format(t[1..], fields);
      if head.Some? && tail.Some? then Some(head.value + tail.value) else None
  }

  /** Literal text formats to itself. */
  lemma FormatText(text: string, fields: map<string, string>)
    ensures Format([Text(text)], fields) == Some(text)
  {
    assert [Text(text)][1..] == [];
    assert text + "" == text;
  }

  /** A field formats to its supplied value, and fails when it is missing. */
  lemma FormatField(name: string, fields: map<string, string>)
    ensures name in fields ==> Format([Field(name)], fields) == Some(fields[name])
    ensures name !in fields ==> Format([Field(name)], fields) == None
  {
    assert [Field(name)][1..] == [];
    assert name in fields ==> fields[name] + "" == fields[name];
  }

  /** Formatting a concatenation of templates concatenates the two results;
      when either half fails, the whole fails. */
  lemma {:induction false} FormatAppend(t1: seq<Piece>, t2: seq<Piece>, fields: map<string, string>)
    ensures Format(t1, fields).Some? && Format(t2, fields).Some?
            ==> Format(t1 + t2, fields) == Some(Format(t1, fields).value + Format(t2, fields).value)
    ensures Format(t1, fields).None? || Format(t2, fields).None? ==> Format(t1 + t2, fields) == None
    decreases |t1|
  {
    if |t1| == 0 {
      assert t1 + t2 == t2;
      assert "" + (if Format(t2, fields).Some? then Format(t2, fields).value else "")
          == (if Format(t2, fields).Some? then Format(t2, fields).value else "");
    } else {
      assert (t1 + t2)[0] == t1[0];
      assert (t1 + t2)[1..] == t1[1..] + t2;
      FormatAppend(t1[1..], t2, fields);
      var f1 := Format(t1[1..], fields);
      var f2 := Format(t2, fields);
      if f1.Some? && f2.Some? {
        var h := match t1[0]
          case Text(x) => x
          case Field(n) => if n in fields then fields[n] else "";
        assert h + (f1.value + f2.value) == (h + f1.value) + f2.value;
      }
    }
  }
}
