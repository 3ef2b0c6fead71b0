/**
 * The string expressions that turn column names and row values into SQL text
 * (classes/data_wrangler.py, lines 325-329, 359-363 and 380-382):
 *
 *   - every piece is quoted by deleting each double quote and wrapping the
 *     rest in double quotes;
 *   - the quoted pieces are joined with ", ";
 *   - the joined text is passed through `lstrip(', ')`.
 *
 * The reader functions at the end recover the pieces from the joined text;
 * the round-trip lemmas state that nothing is lost but the deleted quotes.
 */
module Quoting {
  import opened Wrappers
  import Sequences

  const Dq: char := '"'

  /** The separator of `', '.join(...)`. */
  const JoinSeparator: string := ", "

  /** The characters `lstrip(', ')` removes: a comma and a space. */
  const StripChars: set<char> := {',', ' '}

  /** Number of occurrences of `c` in `s`. */
  function CountChar(s: string, c: char): (n: nat)
    ensures n <= |s|
    ensures n == 0 <==> c !in s
  {
    if s == [] then 0
    else (if s[0] == c then 1 else 0) + CountChar(s[1..], c)
  }

  /** `s.replace('"', "")`: every double quote deleted, every other character kept in order. */
  function StripQuotes(s: string): (r: string)
    ensures Dq !in r
    ensures |r| == |s| - CountChar(s, Dq)
  {
    if s == [] then []
    else (if s[0] == Dq then [] else [s[0]]) + StripQuotes(s[1..])
  }

  /** Deleting quotes never loses or adds any other character. */
  lemma {:induction false} StripQuotesKeepsOtherChars(s: string, c: char)
    requires c != Dq
    ensures CountChar(StripQuotes(s), c) == CountChar(s, c)
  {
    if s != [] {
      StripQuotesKeepsOtherChars(s[1..], c);
      var head := if s[0] == Dq then [] else [s[0]];
      CountCharAppend(head, StripQuotes(s[1..]), c);
    }
  }

  lemma {:induction false} CountCharAppend(a: string, b: string, c: char)
    ensures CountChar(a + b, c) == CountChar(a, c) + CountChar(b, c)
  {
    if a == [] {
      assert a + b == b;
    } else {
      assert (a + b)[0] == a[0];
      assert (a + b)[1..] == a[1..] + b;
      CountCharAppend(a[1..], b, c);
    }
  }

  /** A string without double quotes is left as it is, so quoting twice deletes nothing more. */
  lemma {:induction false} StripQuotesIdentity(s: string)
    ensures StripQuotes(s) == s <==> Dq !in s
  {
    if s != [] {
      StripQuotesIdentity(s[1..]);
      if Dq !in s {
        assert Dq !in s[1..];
      }
    }
  }

  /** `f'"{name.replace("\"","")}"'`: the quoted form of one identifier or value. */
  function Quote(s: string): string
  {
    [Dq] + StripQuotes(s) + [Dq]
  }

  /**
   * The quoted form starts and ends with a double quote, holds no other, and
   * is two characters longer than the input less its double quotes.
   */
  lemma {:induction false} QuoteForm(s: string)
    ensures |Quote(s)| == |s| - CountChar(s, Dq) + 2
    ensures Quote(s)[0] == Dq && Quote(s)[|Quote(s)| - 1] == Dq
    ensures forall i :: 0 < i < |Quote(s)| - 1 ==> Quote(s)[i] != Dq
    ensures CountChar(Quote(s), Dq) == 2
  {
    var body := StripQuotes(s);
    var r := Quote(s);
    assert r[1..|r| - 1] == body;
    CountCharAppend([Dq] + body, [Dq], Dq);
    CountCharAppend([Dq], body, Dq);
  }

  /** The list comprehension applying `Quote` to each piece. */
  function QuoteAll(pieces: seq<string>): seq<string>
  {
    if pieces == [] then [] else [Quote(pieces[0])] + QuoteAll(pieces[1..])
  }

  /** Every piece with its double quotes deleted: what the quoted pieces carry. */
  function StripAll(pieces: seq<string>): seq<string>
  {
    if pieces == [] then [] else [StripQuotes(pieces[0])] + StripAll(pieces[1..])
  }

  /** Python's `sep.join(parts)`. */
  function Join(parts: seq<string>, sep: string): string
  {
    if parts == [] then ""
    else if |parts| == 1 then parts[0]
    else parts[0] + sep + Join(parts[1..], sep)
  }

  /** Python's `s.lstrip(chars)`. */
  function LStrip(s: string, chars: set<char>): string
  {
    if s != [] && s[0] in chars then LStrip(s[1..], chars) else s
  }

  /** `lstrip` removes the longest prefix made only of `chars`, and nothing else. */
  lemma {:induction false} LStripRemovesLongestPrefix(s: string, chars: set<char>)
    ensures |LStrip(s, chars)| <= |s|
    ensures LStrip(s, chars) == s[|s| - |LStrip(s, chars)|..]
    ensures forall i :: 0 <= i < |s| - |LStrip(s, chars)| ==> s[i] in chars
    ensures LStrip(s, chars) != [] ==> LStrip(s, chars)[0] !in chars
  {
    if s != [] && s[0] in chars {
      var t := s[1..];
      var r := LStrip(t, chars);
      LStripRemovesLongestPrefix(t, chars);
      assert LStrip(s, chars) == r;
      assert s[|s| - |r|..] == t[|t| - |r|..];
      forall i | 0 <= i < |s| - |r|
        ensures s[i] in chars
      {
        if i > 0 {
          assert s[i] == t[i - 1];
        }
      }
    } else {
      assert LStrip(s, chars) == s;
      assert s[0..] == s;
    }
  }

  /** The quoted, joined and left-stripped text built from a list of pieces. */
  function QuotedList(pieces: seq<string>): string
  {
    LStrip(Join(QuoteAll(pieces), JoinSeparator), StripChars)
  }

  lemma {:induction false} JoinStartsWithFirst(parts: seq<string>, sep: string)
    requires parts != [] && parts[0] != []
    ensures Join(parts, sep) != [] && Join(parts, sep)[0] == parts[0][0]
  {
    if |parts| > 1 {
      assert Join(parts, sep) == parts[0] + (sep + Join(parts[1..], sep));
    }
  }

  /** Every quoted piece starts with a double quote, so the `lstrip(', ')` removes nothing. */
  lemma {:induction false} QuotedListSkipsLStrip(pieces: seq<string>)
    ensures QuotedList(pieces) == Join(QuoteAll(pieces), JoinSeparator)
  {
    var joined := Join(QuoteAll(pieces), JoinSeparator);
    if pieces == [] {
      assert joined == [];
    } else {
      QuoteForm(pieces[0]);
      assert QuoteAll(pieces)[0] == Quote(pieces[0]);
      JoinStartsWithFirst(QuoteAll(pieces), JoinSeparator);
      assert joined[0] == Dq && Dq !in StripChars;
    }
  }

  /** Reads one quoted piece off the front of `s`: its text and whatever follows its closing quote. */
  function ReadPiece(s: string): (r: Option<(string, string)>)
    ensures r.Some? ==> |r.value.1| < |s|
  {
    if |s| == 0 || s[0] != Dq then None
    else
      var j := Sequences.IndexOf(s[1..], Dq);
      if j == |s| - 1 then None
      else Some((s[1..j + 1], s[j + 2..]))
  }

  /** Reads quoted pieces separated by ", " up to and including a closing ')'. */
  function ReadPieces(s: string): Option<(seq<string>, string)>
    decreases |s|
  {
    match ReadPiece(s)
    case None => None
    case Some((piece, rest)) =>
      if |rest| >= 2 && rest[..2] == JoinSeparator then
        match ReadPieces(rest[2..])
        case None => None
        case Some((more, after)) => Some(([piece] + more, after))
      else if |rest| >= 1 && rest[0] == ')' then Some(([piece], rest[1..]))
      else None
  }

  /** Reads a possibly empty quoted list closed by ')'. */
  function ReadList(s: string): Option<(seq<string>, string)>
  {
    if |s| >= 1 && s[0] == ')' then Some(([], s[1..])) else ReadPieces(s)
  }

  /** A quoted text without inner double quotes reads back as that text. */
  lemma {:induction false} ReadPieceOf(body: string, rest: string)
    requires Dq !in body
    ensures ReadPiece([Dq] + body + [Dq] + rest) == Some((body, rest))
  {
    var s := [Dq] + body + [Dq] + rest;
    var t := body + [Dq] + rest;
    assert s[1..] == t;
    forall j | 0 <= j < |body|
      ensures t[j] != Dq
    {
      assert t[j] == body[j];
    }
    assert t[|body|] == Dq;
    Sequences.IndexOfFirst(t, Dq, |body|);
    assert s[1..|body| + 1] == body;
    assert s[|body| + 2..] == rest;
  }

  lemma {:induction false} ReadQuotedPiece(piece: string, rest: string)
    ensures ReadPiece(Quote(piece) + rest) == Some((StripQuotes(piece), rest))
  {
    ReadPieceOf(StripQuotes(piece), rest);
  }

  lemma {:induction false} ReadLastPiece(piece: string, rest: string)
    ensures ReadPieces(Quote(piece) + ")" + rest) == Some(([StripQuotes(piece)], rest))
  {
    var after := ")" + rest;
    assert Quote(piece) + ")" + rest == Quote(piece) + after;
    ReadQuotedPiece(piece, after);
    assert after[0] == ')' && after[1..] == rest;
    assert !(|after| >= 2 && after[..2] == JoinSeparator);
  }

  lemma {:induction false} ReadNextPiece(piece: string, tail: string, more: seq<string>, after: string)
    requires ReadPieces(tail) == Some((more, after))
    ensures ReadPieces(Quote(piece) + JoinSeparator + tail) == Some(([StripQuotes(piece)] + more, after))
  {
    var rest := JoinSeparator + tail;
    assert Quote(piece) + JoinSeparator + tail == Quote(piece) + rest;
    ReadQuotedPiece(piece, rest);
    assert rest[..2] == JoinSeparator;
    assert rest[2..] == tail;
  }

  lemma {:induction false} ReadJoinedPieces(pieces: seq<string>, rest: string)
    requires pieces != []
    ensures ReadPieces(Join(QuoteAll(pieces), JoinSeparator) + ")" + rest) == Some((StripAll(pieces), rest))
  {
    var q := Quote(pieces[0]);
    assert QuoteAll(pieces) == [q] + QuoteAll(pieces[1..]);
    if |pieces| == 1 {
      assert Join(QuoteAll(pieces), JoinSeparator) == q;
      assert StripAll(pieces) == [StripQuotes(pieces[0])];
      ReadLastPiece(pieces[0], rest);
    } else {
      var tailText := Join(QuoteAll(pieces[1..]), JoinSeparator) + ")" + rest;
      assert Join(QuoteAll(pieces), JoinSeparator) + ")" + rest == q + JoinSeparator + tailText;
      ReadJoinedPieces(pieces[1..], rest);
      ReadNextPiece(pieces[0], tailText, StripAll(pieces[1..]), rest);
    }
  }

  /**
   * The joined list reads back as exactly one piece per input, in order, each
   * being the input with its double quotes deleted; so the text holds as many
   * quoted fields as there were pieces.
   */
  lemma {:induction false} ReadQuotedList(pieces: seq<string>, rest: string)
    ensures ReadList(QuotedList(pieces) + ")" + rest) == Some((StripAll(pieces), rest))
    ensures |StripAll(pieces)| == |pieces|
  {
    QuotedListSkipsLStrip(pieces);
    StripAllLength(pieces);
    if pieces == [] {
      assert QuotedList(pieces) + ")" + rest == ")" + rest;
    } else {
      var joined := Join(QuoteAll(pieces), JoinSeparator);
      QuoteForm(pieces[0]);
      assert QuoteAll(pieces)[0] == Quote(pieces[0]);
      JoinStartsWithFirst(QuoteAll(pieces), JoinSeparator);
      assert (joined + ")" + rest)[0] == Dq;
      ReadJoinedPieces(pieces, rest);
    }
  }

  lemma {:induction false} StripAllLength(pieces: seq<string>)
    ensures |StripAll(pieces)| == |pieces|
  {
    if pieces != [] {
      StripAllLength(pieces[1..]);
    }
  }

}
