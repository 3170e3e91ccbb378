/** Line endings of text bodies (eml_pack.rs), for the CRLF rule of section 2.3 of RFC 5322. */
module Crlf {
  import opened Common
  import opened Base64

  /** A body as a reader sees it: characters, and line ends (None) however they are written. */
  type Text = seq<Option<byte>>

  function Parse(data: Bytes): Text {
    if data == [] then []
    else if data[0] == CR && |data| > 1 && data[1] == LF then [None] + Parse(data[2..])
    else if data[0] == CR || data[0] == LF then [None] + Parse(data[1..])
    else [Some(data[0])] + Parse(data[1..])
  }

  function Piece(c: Option<byte>): Bytes {
    if c.None? then CRLF else [c.value]
  }

  function Show(text: Text): Bytes {
    if text == [] then [] else Piece(text[0]) + Show(text[1..])
  }

  /** Text whose last line is ended. */
  function Closed(text: Text): Text {
    if text == [] || text[|text| - 1] == None then text else text + [None]
  }

  function Normalized(data: Bytes): Bytes {
    Show(Closed(Parse(data)))
  }

  /** No character is itself a line end. */
  predicate Plain(text: Text) {
    forall k | 0 <= k < |text| :: text[k] == None || !(text[k].value == CR || text[k].value == LF)
  }

  lemma {:induction false} ParseIsPlain(data: Bytes)
    ensures Plain(Parse(data)) && (data == [] <==> Parse(data) == [])
  {
    if data != [] {
      ParseIsPlain(data[1..]);
      if |data| > 1 {
        ParseIsPlain(data[2..]);
      }
    }
  }

  lemma {:induction false} ShowConcat(a: Text, b: Text)
    ensures Show(a + b) == Show(a) + Show(b)
  {
    if a == [] {
      assert a + b == b;
    } else {
      ShowConcat(a[1..], b);
      assert (a + b)[0] == a[0] && (a + b)[1..] == a[1..] + b;
      Associate(Piece(a[0]), Show(a[1..]), Show(b));
    }
  }

  lemma ShowOne(c: Option<byte>)
    ensures Show([c]) == Piece(c)
  {
    assert [c][1..] == [];
  }

  /** The bytes end with CR LF exactly when the text's last line is ended. */
  lemma EndsClosed(text: Text)
    requires Plain(text) && text != []
    ensures var out := Show(text);
            (|out| >= 2 && out[|out| - 2..] == CRLF) <==> text[|text| - 1] == None
  {
    var n := |text| - 1;
    assert text == text[..n] + [text[n]];
    ShowConcat(text[..n], [text[n]]);
    ShowOne(text[n]);
    if text[n].Some? {
      assert Show(text)[|Show(text)| - 1] == text[n].value;
    }
  }

  /** How many bytes the next character or line end takes. */
  function Width(data: Bytes, i: nat): (r: nat)
    requires i < |data|
    ensures i + r <= |data|
  {
    if data[i] == CR && i + 1 < |data| && data[i + 1] == LF then 2 else 1
  }

  function Next(data: Bytes, i: nat): Option<byte>
    requires i < |data|
  {
    if data[i] == CR || data[i] == LF then None else Some(data[i])
  }

  lemma ParseNext(data: Bytes, i: nat)
    requires i < |data|
    ensures Parse(data[i..]) == [Next(data, i)] + Parse(data[i + Width(data, i)..])
  {
    var rest := data[i..];
    assert rest[1..] == data[i + 1..];
    if |rest| > 1 {
      assert rest[1] == data[i + 1] && rest[2..] == data[i + 2..];
    }
  }

  /** One more character read. */
  lemma ReadOne(data: Bytes, i: nat, text: Text)
    requires i < |data| && Parse(data) == text + Parse(data[i..])
    ensures Parse(data) == text + [Next(data, i)] + Parse(data[i + Width(data, i)..])
    ensures Show(text + [Next(data, i)]) == Show(text) + Piece(Next(data, i))
  {
    ParseNext(data, i);
    TextRegroup(text, [Next(data, i)], Parse(data[i + Width(data, i)..]));
    ShowConcat(text, [Next(data, i)]);
    ShowOne(Next(data, i));
  }

  lemma ShowClosed(text: Text)
    requires Plain(text)
    ensures var out := Show(text);
            Show(Closed(text)) == out + (if out != [] && !(|out| >= 2 && out[|out| - 2..] == CRLF) then CRLF else [])
  {
    if text != [] {
      EndsClosed(text);
      ShowConcat(text, [None]);
      ShowOne(None);
    }
  }

  /** The scanning loop. */
  method NormalizeBodyCrlf(data: Bytes) returns (out: Bytes)
    ensures out == Normalized(data)
  {
    out := [];
    var i := 0;
    ghost var text: Text := [];
    while i < |data|
      invariant 0 <= i <= |data| && out == Show(text) && Parse(data) == text + Parse(data[i..])
    {
      ReadOne(data, i, text);
      text := text + [Next(data, i)];
      if data[i] == CR {
        if i + 1 < |data| && data[i + 1] == LF {
          out := out + [CR, LF];
          i := i + 2;
        } else {
          out := out + [CR, LF];
          i := i + 1;
        }
      } else if data[i] == LF {
        out := out + [CR, LF];
        i := i + 1;
      } else {
        out := out + [data[i]];
        i := i + 1;
      }
    }
    assert text == Parse(data);
    ParseIsPlain(data);
    ShowClosed(text);
    if out != [] && !(|out| >= 2 && out[|out| - 2..] == CRLF) {
      out := out + [CR, LF];
    }
  }

  /** A reader of the bytes sees the same text: every character in order, and every line ended where it was. */
  lemma {:induction false} ParseShow(text: Text)
    requires Plain(text)
    ensures Parse(Show(text)) == text
  {
    if text != [] {
      ParseShow(text[1..]);
      var rest := Show(text[1..]);
      var out := Piece(text[0]) + rest;
      if text[0].None? {
        assert out[2..] == rest;
      } else {
        assert out[1..] == rest;
      }
    }
  }

  lemma ClosedIsPlain(text: Text)
    requires Plain(text)
    ensures Plain(Closed(text)) && Closed(Closed(text)) == Closed(text)
  {
  }

  /** What normalizing keeps: the text, but for an ended last line. */
  lemma NormalizedKeepsText(data: Bytes)
    ensures Parse(Normalized(data)) == Closed(Parse(data))
  {
    ParseIsPlain(data);
    ClosedIsPlain(Parse(data));
    ParseShow(Closed(Parse(data)));
  }

  /** Normalizing twice changes nothing more. */
  lemma NormalizedTwice(data: Bytes)
    ensures Normalized(Normalized(data)) == Normalized(data)
  {
    NormalizedKeepsText(data);
    ParseIsPlain(data);
    ClosedIsPlain(Parse(data));
  }

  predicate PairedAt(out: Bytes, i: nat)
    requires i < |out|
  {
    (out[i] == CR ==> i + 1 < |out| && out[i + 1] == LF) && (out[i] == LF ==> i > 0 && out[i - 1] == CR)
  }

  /** CR and LF occur only as pairs. */
  predicate OnlyPairs(out: Bytes) {
    forall i: nat | i < |out| :: PairedAt(out, i)
  }

  lemma {:induction false} ShowOnlyPairs(text: Text)
    requires Plain(text)
    ensures OnlyPairs(Show(text))
  {
    if text != [] {
      ShowOnlyPairs(text[1..]);
      var rest := Show(text[1..]);
      var head := Piece(text[0]);
      forall i: nat | i < |head + rest|
        ensures PairedAt(head + rest, i)
      {
        if i >= |head| {
          assert PairedAt(rest, i - |head|);
        }
      }
    }
  }

  /** The form a mail body must have: paired line ends only, and the last line ended. */
  lemma NormalizedForm(data: Bytes)
    ensures var out := Normalized(data);
            && OnlyPairs(out) && (out == [] <==> data == [])
            && (data != [] ==> |out| >= 2 && out[|out| - 2..] == CRLF)
  {
    ParseIsPlain(data);
    var text := Closed(Parse(data));
    ClosedIsPlain(Parse(data));
    ShowOnlyPairs(text);
    if data != [] {
      EndsClosed(text);
    }
  }

  /** Bodies already in that form pass unchanged. */
  lemma NormalizedFixes(data: Bytes)
    ensures Normalized(data) == data <==> OnlyPairs(data) && (data == [] || (|data| >= 2 && data[|data| - 2..] == CRLF))
  {
    NormalizedForm(data);
    if OnlyPairs(data) && (data == [] || (|data| >= 2 && data[|data| - 2..] == CRLF)) {
      ShowParse(data);
      ParseIsPlain(data);
      if data != [] {
        EndsClosed(Parse(data));
      }
    }
  }

  lemma {:induction false} ShowParse(data: Bytes)
    requires OnlyPairs(data)
    ensures Show(Parse(data)) == data
  {
    if data != [] {
      assert PairedAt(data, 0);
      var step := if data[0] == CR then 2 else 1;
      var rest := data[step..];
      forall i: nat | i < |rest|
        ensures PairedAt(rest, i)
      {
        assert PairedAt(data, step + i) && (i > 0 || PairedAt(data, step - 1));
      }
      ShowParse(rest);
    }
  }

  // ---- the text, told byte by byte ----

  /** The text of the first n bytes: CR ends a line, and so does LF unless a CR has just ended it. */
  function Reading(data: Bytes, n: nat): Text
    requires n <= |data|
  {
    if n == 0 then []
    else
      Reading(data, n - 1)
      + if data[n - 1] == CR then [None]
        else if data[n - 1] != LF then [Some(data[n - 1])]
        else if n >= 2 && data[n - 2] == CR then []
        else [None]
  }

  /** The reading so far, and the text still to come when no CR LF is cut in two. */
  lemma {:induction false} ReadingGoesOn(data: Bytes, n: nat)
    requires n <= |data| && !(0 < n < |data| && data[n - 1] == CR && data[n] == LF)
    ensures Reading(data, n) + Parse(data[n..]) == Reading(data, |data|)
    decreases |data| - n
  {
    if n == |data| {
      assert data[n..] == [];
    } else {
      var next := n + Width(data, n);
      ParseNext(data, n);
      ReadingNext(data, n, next);
      ReadingGoesOn(data, next);
      TextRegroup(Reading(data, n), [Next(data, n)], Parse(data[next..]));
    }
  }

  lemma TextRegroup(a: Text, b: Text, c: Text)
    ensures (a + b) + c == a + (b + c)
  {
  }

  lemma ReadingNext(data: Bytes, n: nat, next: nat)
    requires n < |data| && next == n + Width(data, n) && !(0 < n && data[n - 1] == CR && data[n] == LF)
    ensures Reading(data, next) == Reading(data, n) + [Next(data, n)]
    ensures !(0 < next < |data| && data[next - 1] == CR && data[next] == LF)
  {
    if Width(data, n) == 2 {
      assert Reading(data, n + 2) == Reading(data, n + 1) + [];
    }
  }

  /** The text of a body is its reading from left to right, and normalizing keeps it but for an ended last line. */
  lemma TextIsReading(data: Bytes)
    ensures Parse(data) == Reading(data, |data|)
    ensures Reading(Normalized(data), |Normalized(data)|) ==
            var text := Reading(data, |data|);
            if text == [] || text[|text| - 1] == None then text else text + [None]
  {
    ParseIsReading(data);
    ParseIsReading(Normalized(data));
    NormalizedKeepsText(data);
  }

  lemma ParseIsReading(data: Bytes)
    ensures Parse(data) == Reading(data, |data|)
  {
    ReadingGoesOn(data, 0);
    assert data[0..] == data;
  }
}
