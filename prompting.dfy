/**
 * The prompt `ask` sends to the completion service: each retrieved chunk as a
 * line `[CHUNK <chunk_id>]: <text>`, in retrieval order, under the question.
 */
module Prompting {
  import opened Retrieval

  function DigitChar(d: nat): (c: char)
    requires d < 10
    ensures '0' <= c <= '9' && c as int - '0' as int == d
  {
    ('0' as int + d) as char
  }

  predicate IsDigits(s: string) {
    forall i :: 0 <= i < |s| ==> '0' <= s[i] <= '9'
  }

  /** The decimal rendering of a non-negative integer, without leading zeros. */
  function NatToString(n: nat): (s: string)
    ensures |s| > 0 && IsDigits(s)
    ensures s[0] == '0' ==> n == 0 && |s| == 1
    decreases n
  {
    if n < 10 then [DigitChar(n)] else NatToString(n / 10) + [DigitChar(n % 10)]
  }

  /** The value of a string of decimal digits. */
  function ParseNat(s: string): nat
    requires IsDigits(s)
  {
    if s == [] then 0 else ParseNat(s[..|s| - 1]) * 10 + (s[|s| - 1] as int - '0' as int)
  }

  /** The decimal rendering of a chunk id reads back as that id. */
  lemma {:induction false} NatToStringRoundTrip(n: nat)
    ensures ParseNat(NatToString(n)) == n
    decreases n
  {
    if n >= 10 {
      NatToStringRoundTrip(n / 10);
      var s := NatToString(n);
      assert s[..|s| - 1] == NatToString(n / 10);
    }
  }

  /** One context line: the chunk id in brackets after "CHUNK", a colon, the chunk text and a newline. */
  function Line(c: RetrievedChunk): string {
    "[CHUNK " + NatToString(c.chunkId) + "]: " + c.text + "\n"
  }

  /** The context: one line per retrieved chunk, in order. */
  function Context(cs: seq<RetrievedChunk>): string {
    if cs == [] then [] else Line(cs[0]) + Context(cs[1..])
  }

  /** The context of `a + b` is the context of `a` followed by that of `b`. */
  lemma {:induction false} ContextAppend(a: seq<RetrievedChunk>, b: seq<RetrievedChunk>)
    ensures Context(a + b) == Context(a) + Context(b)
  {
    if a == [] {
      assert a + b == b;
    } else {
      assert (a + b)[1..] == a[1..] + b;
      ContextAppend(a[1..], b);
    }
  }

  /** The loop appending one context line per retrieved chunk. */
  method BuildContext(cs: seq<RetrievedChunk>) returns (context: string)
    ensures context == Context(cs)
  {
    context := "";
    var i := 0;
    while i < |cs|
      invariant 0 <= i <= |cs|
      invariant context == Context(cs[..i])
    {
      ContextAppend(cs[..i], [cs[i]]);
      assert cs[..i + 1] == cs[..i] + [cs[i]];
      assert Context([cs[i]]) == Line(cs[i]);
      context := context + Line(cs[i]);
      i := i + 1;
    }
    assert cs[..i] == cs;
  }

  /** The prompt template of `ask`, filled with the question and the context. */
  function Prompt(question: string, context: string): string {
    "\nYou are a helpful assistant.\nAnswer ONLY using the context.\n\nQUESTION:\n"
    + question + "\n\nCONTEXT:\n" + context + "\n"
  }
}
