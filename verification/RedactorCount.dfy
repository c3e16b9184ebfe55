/** eval/crazeeval/proxy.py: what `Redactor` counts as redactions. */
module RedactionCount {
  import opened Common
  import opened ByteStrings
  import opened Redaction

  /** How many opening brackets there are. */
  function Brackets(s: Bytes): nat {
    if s == [] then 0 else Brackets(s[..|s| - 1]) + (if s[|s| - 1] == '<' then 1 else 0)
  }

  lemma {:induction false} BracketsConcat(a: Bytes, b: Bytes)
    ensures Brackets(a + b) == Brackets(a) + Brackets(b)
    decreases |b|
  {
    if b == [] {
      assert a + b == a;
    } else {
      assert (a + b)[..|a + b| - 1] == a + b[..|b| - 1];
      BracketsConcat(a, b[..|b| - 1]);
    }
  }

  lemma {:induction false} NoBrackets(s: Bytes)
    requires '<' !in s
    ensures Brackets(s) == 0
  {
    if s != [] {
      NoBrackets(s[..|s| - 1]);
    }
  }

  /** The placeholder has one. */
  lemma OneBracket()
    ensures Brackets(REDACTED) == 1
  {
    assert REDACTED == "<" + REDACTED[1..];
    BracketsConcat("<", REDACTED[1..]);
    NoBrackets(REDACTED[1..]);
    assert "<"[..0] == [];
  }

  lemma MatchCounted(f: Bytes, more: Bytes, replaced: Bytes, n: nat)
    requires '<' !in f && Brackets(replaced) == Brackets(more) + n
    ensures Brackets(REDACTED + replaced) == Brackets(f + more) + (1 + n)
  {
    BracketsConcat(f, more);
    BracketsConcat(REDACTED, replaced);
    NoBrackets(f);
    OneBracket();
  }

  lemma ByteCounted(c: char, more: Bytes, replaced: Bytes, n: nat)
    requires Brackets(replaced) == Brackets(more) + n
    ensures Brackets([c] + replaced) == Brackets([c] + more) + n
  {
    BracketsConcat([c], more);
    BracketsConcat([c], replaced);
  }

  lemma {:induction false} ReplaceCounted(buf: Bytes, f: Bytes)
    requires f != [] && '<' !in f
    ensures Brackets(Replace(buf, f)) == Brackets(buf) + Occurrences(buf, f)
  {
    if |buf| >= |f| {
      if buf[..|f|] == f {
        var more := buf[|f|..];
        ReplaceCounted(more, f);
        MatchCounted(f, more, Replace(more, f), Occurrences(more, f));
        assert buf == f + more;
      } else {
        var more := buf[1..];
        ReplaceCounted(more, f);
        ByteCounted(buf[0], more, Replace(more, f), Occurrences(more, f));
        assert buf == [buf[0]] + more;
      }
    }
  }

  /** The redactions counted are the placeholders put in: with forms free of brackets, each brings
      one of its own, and takes none away. */
  lemma {:induction false} RedactionsAreThePlaceholders(buf: Bytes, forms: seq<Bytes>)
    requires NonEmpty(forms) && forall i :: 0 <= i < |forms| ==> '<' !in forms[i]
    ensures Brackets(ReplaceForms(buf, forms)) == Brackets(buf) + Redactions(buf, forms)
    decreases |forms|
  {
    if forms != [] {
      ReplaceCounted(buf, forms[0]);
      RedactionsAreThePlaceholders(Replace(buf, forms[0]), forms[1..]);
    }
  }
}
