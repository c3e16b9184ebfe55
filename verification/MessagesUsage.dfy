/** eval/crazeeval/pricing.py, `usage_from_messages`: what a Messages stream's counts bill. */
module MessagesUsage {
  import opened Common
  import opened JsonTrees
  import P = Pricing
  import opened SseParsing
  import opened UsageFolding

  /** `_int`: a number cut to an integer, text as `parse` reads it, anything else 0. */
  function AsInt(j: Json, parse: string -> int): int {
    match j
    case Bool(b) => if b then 1 else 0
    case Int(n) => n
    case Float(x) => if x >= 0.0 then x.Floor else -(-x).Floor
    case Str(s) => if s == "" then 0 else parse(s)
    case _ => 0
  }

  function Count(c: Counts, name: string): Json { if name in c then c[name] else Null }

  /** `usage_from_messages` */
  function FromMessages(counts: Option<Counts>, parse: string -> int): Option<P.Usage> {
    if counts.None? || Count(counts.value, "input_tokens").Null? || Count(counts.value, "output_tokens").Null? then None
    else
      var c := counts.value;
      var read := AsInt(Count(c, "cache_read_input_tokens"), parse);
      var write := AsInt(Count(c, "cache_creation_input_tokens"), parse);
      var details := Count(c, "output_tokens_details");
      var thinking := if details.Obj? then AsInt(Get(details.fields, "thinking_tokens"), parse) else 0;
      Some(P.Usage(AsInt(Count(c, "input_tokens"), parse) + read + write, read,
                   AsInt(Count(c, "output_tokens"), parse), thinking, write))
  }

  /** A count the API reports: a number of tokens, or none. */
  predicate Reports(j: Json, n: nat) { j == Int(n) || (n == 0 && j == Null) }

  /** With counts as the API reports them, the prompt is billed in the parts reported: the
      uncached, those read from the cache, those written to it; and thinking costs nothing
      beside the output it is part of. */
  lemma BilledAsReported(c: Counts, parse: string -> int, input: nat, read: nat, write: nat, out: nat,
                         price: P.Price, listPrice: bool)
    requires Count(c, "input_tokens") == Int(input) && Count(c, "output_tokens") == Int(out)
    requires Reports(Count(c, "cache_read_input_tokens"), read)
    requires Reports(Count(c, "cache_creation_input_tokens"), write)
    ensures var usage := FromMessages(Some(c), parse);
            && usage.Some? && P.PromptParts(usage.value) == (input, read, write) && usage.value.output == out
            && P.Cost(price, usage.value, listPrice)
               == P.Cost(price, P.Usage(input + read + write, read, out, 0, write), listPrice)
  {
  }

  /** What a stream bills: there is a usage exactly when its start and a delta reported and, of the
      counts, both the input's and the output's were among them; each is the last reported. */
  lemma StreamBills(es: seq<Event>, parse: string -> int)
    ensures FromMessages(StreamCounts(es), parse).Some?
       <==> && (exists i :: 0 <= i < |es| && StartReported(es[i]))
            && (exists i :: 0 <= i < |es| && DeltaReported(es[i]))
            && (exists i :: 0 <= i < |es| && ReportsCount(es[i], "input_tokens"))
            && (exists i :: 0 <= i < |es| && ReportsCount(es[i], "output_tokens"))
    ensures forall i, j ::
              FromMessages(StreamCounts(es), parse).Some?
              && LastToReport(es, i, "input_tokens") && LastToReport(es, j, "output_tokens") ==>
                var u := FromMessages(StreamCounts(es), parse).value;
                u.input - u.cached - u.cacheWrite == AsInt(UsageIn(es[i]).value["input_tokens"], parse)
                && u.output == AsInt(UsageIn(es[j]).value["output_tokens"], parse)
  {
    CountsAreLast(es, "input_tokens");
    CountsAreLast(es, "output_tokens");
    NeverNull(es, "input_tokens");
    NeverNull(es, "output_tokens");
  }

  /** Null counts are not kept. */
  lemma {:induction false} NeverNull(es: seq<Event>, k: string)
    ensures var c := TallyAll(es).counts; c.Some? && k in c.value ==> c.value[k] != Null
  {
    if es != [] {
      NeverNull(es[..|es| - 1], k);
      MergeByCount(TallyAll(es[..|es| - 1]).counts, UsageIn(es[|es| - 1]), k);
    }
  }
}
