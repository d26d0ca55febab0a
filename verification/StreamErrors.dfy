/** What the streaming capture refuses by its header and by its length, and what it calls it. */
module StreamErrors {
  import opened ConfigurationParser
  import opened ConfigurationStream
  import opened ParserAgreement

  /** The length a nine-byte header announces, low byte first. */
  function Announced(h: seq<U8>): int
    requires |h| == 9
  {
    var low: int, high: int := h[2], h[3];
    low + 0x100 * high
  }

  /** The header's bytes: nine, a configuration descriptor of 9 to 1024 bytes, one to four interfaces, a value. */
  lemma HeaderIsJudged(h: seq<U8>)
    ensures |h| != 9 ==> HeaderVerdict(h) == Err(Malformed)
    ensures |h| == 9 ==>
      var total := Announced(h);
      HeaderVerdict(h) ==
        if h[0] != 9 || h[1] != 2 || total < 9 || h[5] == 0 then Err(Malformed)
        else if total > 1024 then Err(Oversized)
        else if h[4] < 1 || h[4] > 4 then Err(Unsupported)
        else Ok(Expected(total, h[5]))
  {
  }

  /** A read of another length than announced is refused: too long as oversized, too short as malformed. */
  lemma LengthIsJudged(stale: Registers, h: seq<U8>, d: seq<U8>)
    requires |h| == 9 && HeaderVerdict(h).Ok? && |d| < 0x1_0000 && |d| != Announced(h)
    ensures Streamed(stale, h, d) == Err(if |d| > Announced(h) then Oversized else Malformed)
  {
    var e, s := HeaderVerdict(h).value, Prepared(stale);
    var f := (r: Registers, x: U8) => Advance(r, x, e);
    RunFolds(f, s, d, |d|, e);
    BytesAreCounted(f, s, d, 0, |d|, e);
  }
}
