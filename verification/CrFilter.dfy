/** The filter on plain text that puts a CR before each LF that has none. */
module CrFilter {
  import opened Bytes

  const CR := '\r'
  const LF := '\n'

  /** The whole text at once; last is the character before it. */
  function InsertCr(text: string, last: char): string {
    if text == "" then ""
    else (if text[0] == LF && last != CR then [CR, LF] else [text[0]]) + InsertCr(text[1..], text[0])
  }

  function LastOf(text: string, last: char): char {
    if text == "" then last else text[|text| - 1]
  }

  /** Every LF follows a CR. */
  predicate Terminated(text: string, last: char) {
    forall i :: 0 <= i < |text| ==> FollowsCr(text, last, i)
  }

  /** The character at i is no LF, or the one before it is a CR. */
  predicate FollowsCr(text: string, last: char, i: nat)
    requires i < |text|
  {
    text[i] == LF ==> (if i == 0 then last else text[i - 1]) == CR
  }

  /** Text with a line end written as LF only: a CR right before an LF is dropped. */
  function Unix(text: string): string {
    if text == "" then ""
    else if text[0] == CR && |text| > 1 && text[1] == LF then Unix(text[1..])
    else [text[0]] + Unix(text[1..])
  }

  lemma {:induction false} InsertCrAppend(a: string, b: string, last: char)
    ensures InsertCr(a + b, last) == InsertCr(a, last) + InsertCr(b, LastOf(a, last))
  {
    if a == "" {
      assert a + b == b;
    } else {
      assert (a + b)[1..] == a[1..] + b;
      InsertCrAppend(a[1..], b, a[0]);
    }
  }

  lemma {:induction false} InsertCrTerminates(text: string, last: char)
    ensures Terminated(InsertCr(text, last), last)
  {
    if text != "" {
      InsertCrTerminates(text[1..], text[0]);
      var head := if text[0] == LF && last != CR then [CR, LF] else [text[0]];
      var tail := InsertCr(text[1..], text[0]);
      var all := InsertCr(text, last);
      forall i | 0 <= i < |all| ensures FollowsCr(all, last, i) {
        if i >= |head| {
          assert all[i] == tail[i - |head|] && FollowsCr(tail, text[0], i - |head|);
          assert i > |head| ==> all[i - 1] == tail[i - |head| - 1];
        }
      }
    }
  }

  /** Text that needs nothing is passed on as it is. */
  lemma {:induction false} TerminatedIsKept(text: string, last: char)
    requires Terminated(text, last)
    ensures InsertCr(text, last) == text
  {
    if text != "" {
      assert FollowsCr(text, last, 0);
      forall i | 0 <= i < |text[1..]| ensures FollowsCr(text[1..], text[0], i) {
        assert FollowsCr(text, last, i + 1);
      }
      TerminatedIsKept(text[1..], text[0]);
    }
  }

  /** Filtering twice is filtering once, and filtering changes exactly the texts that are not terminated. */
  lemma InsertCrIsIdempotent(text: string, last: char)
    ensures InsertCr(InsertCr(text, last), last) == InsertCr(text, last)
    ensures InsertCr(text, last) == text <==> Terminated(text, last)
  {
    InsertCrTerminates(text, last);
    TerminatedIsKept(InsertCr(text, last), last);
    if Terminated(text, last) { TerminatedIsKept(text, last); }
  }

  /** Apart from how lines end the text is untouched. */
  lemma {:induction false} SameLines(text: string, last: char)
    ensures Unix(InsertCr(text, last)) == Unix(text)
  {
    if text != "" {
      SameLines(text[1..], text[0]);
      var tail := InsertCr(text[1..], text[0]);
      if text[0] == LF && last != CR {
        assert InsertCr(text, last)[1..] == [LF] + tail;
        assert ([LF] + tail)[1..] == tail;
      } else {
        assert InsertCr(text, last)[1..] == tail;
      }
    }
  }

  class Filter {
    const insertCr: bool
    var lastChar: char
    var output: string       // everything handed to the output callback so far

    constructor (insertCr: bool)
      ensures this.insertCr == insertCr && lastChar == '\0' && output == ""
    {
      this.insertCr := insertCr;
      lastChar := '\0';
      output := "";
    }

    /** One call with a piece of the text, passed on in runs between the inserted CRs. */
    method Write(data: string)
      modifies this
      ensures output == old(output) + (if insertCr then InsertCr(data, old(lastChar)) else data)
      ensures lastChar == LastOf(data, old(lastChar))
    {
      if !insertCr {
        output := output + data;
        if |data| != 0 {
          lastChar := data[|data| - 1];
        }
        return;
      }
      hide InsertCr, LastOf;
      var chunkStart := 0;
      ghost var was := lastChar;
      Nothing(was);
      assert data[..0] == "" && output + "" == output;
      for i := 0 to |data|
        invariant chunkStart <= i && lastChar == LastOf(data[..i], was)
        invariant output + data[chunkStart..i] == old(output) + InsertCr(data[..i], was)
      {
        OneMore(data, i, was);
        SliceGrows(output, data, chunkStart, i);
        ghost var before := output + data[chunkStart..i];
        if data[i] == LF && lastChar != CR {
          if i != chunkStart {
            output := output + data[chunkStart..i];
          }
          assert output == before;
          output := output + [CR];
          chunkStart := i;
          assert output + [LF] == before + [CR, LF];
        }
        lastChar := data[i];
      }
      assert data[..|data|] == data;
      if chunkStart != |data| {
        output := output + data[chunkStart..];
      }
    }

    /** However a text is cut into pieces, the output is that of the text in one piece. */
    method WriteAll(pieces: seq<string>)
      modifies this
      ensures output == old(output) + (if insertCr then InsertCr(Flatten(pieces), old(lastChar)) else Flatten(pieces))
    {
      hide InsertCr, LastOf, Flatten, Passed;
      ghost var all := Passed(Flatten(pieces), lastChar);
      assert pieces[0..] == pieces;
      for i := 0 to |pieces|
        invariant output + Passed(Flatten(pieces[i..]), lastChar) == old(output) + all
      {
        NextPiece(pieces, i, lastChar);
        Write(pieces[i]);
      }
      NothingToPass(lastChar);
      assert pieces[|pieces|..] == [];
      WhatPassed(Flatten(pieces), old(lastChar));
    }

    /** What the filter lets through for a text. */
    function Passed(text: string, last: char): string {
      if insertCr then InsertCr(text, last) else text
    }

    lemma WhatPassed(text: string, last: char)
      ensures Passed(text, last) == if insertCr then InsertCr(text, last) else text
    {
    }

    lemma NothingToPass(last: char)
      ensures Passed(Flatten([]), last) == ""
    {
    }

    lemma NextPiece(pieces: seq<string>, i: nat, last: char)
      requires i < |pieces|
      ensures Passed(Flatten(pieces[i..]), last)
              == (if insertCr then InsertCr(pieces[i], last) else pieces[i])
                 + Passed(Flatten(pieces[i + 1..]), LastOf(pieces[i], last))
    {
      hide InsertCr, LastOf;
      assert pieces[i..][1..] == pieces[i + 1..];
      InsertCrAppend(pieces[i], Flatten(pieces[i + 1..]), last);
    }
  }

  lemma Nothing(last: char)
    ensures InsertCr("", last) == "" && LastOf("", last) == last
  {
  }

  lemma SliceGrows(before: string, data: string, from: nat, i: nat)
    requires from <= i < |data|
    ensures before + data[from..i + 1] == before + data[from..i] + [data[i]] && data[i..i + 1] == [data[i]]
  {
    assert data[from..i + 1] == data[from..i] + [data[i]];
  }

  lemma OneMore(data: string, i: nat, last: char)
    requires i < |data|
    ensures InsertCr(data[..i + 1], last)
            == InsertCr(data[..i], last)
               + (if data[i] == LF && LastOf(data[..i], last) != CR then [CR, LF] else [data[i]])
    ensures LastOf(data[..i + 1], last) == data[i]
  {
    var l := LastOf(data[..i], last);
    assert data[..i + 1] == data[..i] + [data[i]];
    InsertCrAppend(data[..i], [data[i]], last);
    assert [data[i]][1..] == "";
    assert InsertCr("", data[i]) == "";
  }
}
