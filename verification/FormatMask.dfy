/**
 * The scan of the format and the measuring pass together: what a `*` precision
 * in the format means for the bytes sent of the string it bounds.
 */
module FormatMask {
  import opened Bytes
  import opened Wire
  import opened FormatScan

  /** The argument before a bounded string is the precision that bounds it. */
  lemma {:induction false} PrecisionComesBefore(items: seq<Item>, k: int)
    requires BoundedString(Uses(items), k)
    ensures k > 0 && Uses(items)[k - 1] == PrecisionUse
  {
    var head := Uses(items[..1]);
    FirstUses(items);
    if k >= |head| {
      PrecisionComesBefore(items[1..], k - |head|);
    }
  }

  lemma FirstUses(items: seq<Item>)
    requires items != []
    ensures Uses(items) == Uses(items[..1]) + Uses(items[1..])
    ensures Uses(items[..1]) == (match items[0]
                                 case Conversion(spec, conv) => SpecUses(spec) + [ValueUse(conv, spec.precision == Some(Star))]
                                 case Unfinished(spec) => SpecUses(spec)
                                 case _ => [])
  {
    assert items[..1] == [items[0]] && items[..1][1..] == [];
  }

  /**
   * Of a string that the format bounds by a `*` precision, as many bytes are sent as the string has up to its NUL, cut
   * to the precision the call passes right before it if that is not negative; cut only if the format has the literal
   * text the scan looks for.
   */
  lemma BoundedStringIsCut(c: LogCall, format: string, max: MaxString, k: nat)
    requires c.Valid(max) && c.mask == MarkedArgs(format, |c.args|)
    requires k < |c.args| && k < MASK_BITS && BoundedString(Uses(Parse(format)), k)
    requires c.args[k].Str? && c.args[k].str.Chars? && (k > 0 ==> c.args[k - 1].Int32?)
    ensures k > 0 && Uses(Parse(format))[k - 1] == PrecisionUse && ValidArg(c.args[k], max)
    ensures var text, precision := c.args[k].str.mem, Signed(c.args[k - 1].v);
            var len := StrLen(text.measured, max);
            var n := if Contains(format, "%.*s") && 0 <= precision then Min(precision, len) else len;
            ArgBytes(c.args, c.mask, max, k) == Le32(n) + text.sent[..n]
  {
    hide Parse, Uses, Contains, Le32;
    PrecisionComesBefore(Parse(format), k);
    ValidAt(c, max, k);
  }

  /** In particular a format with the literal text sends no more than the precision allows. */
  lemma NoMoreThanPrecision(c: LogCall, format: string, max: MaxString, k: nat)
    requires c.Valid(max) && c.mask == MarkedArgs(format, |c.args|) && Contains(format, "%.*s")
    requires k < |c.args| && k < MASK_BITS && BoundedString(Uses(Parse(format)), k)
    requires c.args[k].Str? && k > 0 && c.args[k - 1].Int32? && Signed(c.args[k - 1].v) >= 0
    ensures ValidArg(c.args[k], max) && |ArgBytes(c.args, c.mask, max, k)| <= 4 + Signed(c.args[k - 1].v)
  {
    hide Parse, Uses, Contains, Le32, MarkedArgs, LogCall.Valid, SentLen;
    ValidAt(c, max, k);
    if c.args[k].str.Chars? {
      BoundedStringIsCut(c, format, max, k);
    } else {
      NullHasNoBytes(c.args, c.mask, max, k);
    }
  }

  lemma NullHasNoBytes(args: seq<Arg>, mask: set<nat>, max: MaxString, k: nat)
    requires k < |args| && args[k] == Str(NullString)
    ensures |ArgBytes(args, mask, max, k)| == 4
  {
  }
}
