/**
 * Id generation: `prefix-<uuid>` when a random UUID source exists, otherwise
 * `prefix-<base-36 clock>-<base-36 counter padded to 3>` from a module-level
 * counter. The UUID source and the clock are inputs; the counter is the
 * generator's field.
 */
module Ids {
  import opened Wrappers
  import Text

  const SuffixWidth := 3

  /**
   * The counter part: `sequence.toString(36).padStart(3, "0")`. It is made of base-36
   * digits, at least 3 long, has a leading zero only when padded to exactly 3, and
   * decodes to `sequence`.
   */
  function Suffix(sequence: nat): (s: string)
    ensures |s| >= SuffixWidth
    ensures forall i :: 0 <= i < |s| ==> Text.IsDigitChar(s[i])
    ensures |s| == SuffixWidth || s[0] != '0'
    ensures '-' !in s
    ensures Text.Value(s, 36) == sequence
  {
    var digits := Text.Digits(sequence, 36);
    var padded := Text.PadStart(digits, SuffixWidth, '0');
    Text.DigitsRoundTrip(sequence, 36);
    Text.PadStartValue(digits, SuffixWidth, 36);
    Text.PadStartDigits(digits, SuffixWidth);
    padded
  }

  /** The id built on the counter path. */
  function FallbackId(prefix: string, now: nat, sequence: nat): (id: string)
    ensures |id| > |prefix| + 1 && id[..|prefix| + 1] == prefix + "-"
  {
    prefix + "-" + Text.Digits(now, 36) + "-" + Suffix(sequence)
  }

  /** The counter can be read back from a fallback id: it is the base-36 value of the text after the last dash. */
  lemma FallbackIdDecodes(prefix: string, now: nat, sequence: nat)
    ensures Text.Value(Text.LastSegment(FallbackId(prefix, now, sequence)), 36) == sequence
  {
    Text.LastSegmentAfterDash(prefix + "-" + Text.Digits(now, 36), Suffix(sequence));
  }

  /** Fallback ids built on different counter values differ, whatever their prefixes and clock readings. */
  lemma FallbackIdsDistinct(p1: string, t1: nat, s1: nat, p2: string, t2: nat, s2: nat)
    requires s1 != s2
    ensures FallbackId(p1, t1, s1) != FallbackId(p2, t2, s2)
  {
    FallbackIdDecodes(p1, t1, s1);
    FallbackIdDecodes(p2, t2, s2);
  }

  /** The process-wide generator: the `sequence` counter of the fallback path. */
  class IdGenerator {
    var sequence: nat

    constructor ()
      ensures sequence == 0
    {
      sequence := 0;
    }

    /**
     * `createId(prefix)`. `uuid` is what `crypto.randomUUID()` returns when it exists;
     * `now` is the clock reading used on the fallback path.
     */
    method CreateId(prefix: string, uuid: Option<string>, now: nat) returns (id: string)
      modifies this
      ensures uuid.Some? ==> id == prefix + "-" + uuid.value && sequence == old(sequence)
      ensures uuid.None? ==> sequence == old(sequence) + 1 && id == FallbackId(prefix, now, sequence)
    {
      if uuid.Some? {
        id := prefix + "-" + uuid.value;
        return;
      }
      sequence := sequence + 1;
      var stamp := Text.Digits(now, 36);
      var suffix := Suffix(sequence);
      id := prefix + "-" + stamp + "-" + suffix;
    }
  }

  /** Two fallback calls on one generator never return the same id, even with equal clock readings. */
  method TwoFallbackIdsDiffer(g: IdGenerator, prefix: string, now1: nat, now2: nat) returns (a: string, b: string)
    modifies g
    ensures a != b
    ensures g.sequence == old(g.sequence) + 2
  {
    a := g.CreateId(prefix, None, now1);
    b := g.CreateId(prefix, None, now2);
    FallbackIdsDistinct(prefix, now1, g.sequence - 1, prefix, now2, g.sequence);
  }
}
