/**
 * The dot leader `justify_format` writes before a right-aligned figure of the profile
 * card: the figure's text is followed, in the element before it, by a run of dots that
 * brings the pair to a fixed width.
 */
module Justify {
  import opened Common

  /** How many characters the leader must fill: `max(0, length - len(new_text))`. */
  function Gap(text: string, length: int): nat {
    Max(0, length - |text|)
  }

  /**
   * The leader for a figure `text` in a field of `length` characters: nothing, one
   * space, a dot and a space, or a space, `gap - 2` dots and a space.
   */
  function Dots(text: string, length: int): (d: string)
    ensures |d| == Gap(text, length)
  {
    var gap := Gap(text, length);
    if gap == 0 then ""
    else if gap == 1 then " "
    else if gap == 2 then ". "
    else " " + Repeat('.', gap - 2) + " "
  }

  /**
   * The character a leader of `n` characters holds at position `i`, stated without the
   * table: the last is a space, the first is a space unless the leader is exactly two
   * long, and everything else is a dot.
   */
  function LeaderChar(n: nat, i: nat): char {
    if i == n - 1 then ' '
    else if i == 0 && n != 2 then ' '
    else '.'
  }

  /** The leader agrees with the position-wise description, character by character. */
  lemma DotsByPosition(text: string, length: int)
    ensures forall i :: 0 <= i < |Dots(text, length)| ==>
      Dots(text, length)[i] == LeaderChar(|Dots(text, length)|, i)
  {
    var d := Dots(text, length);
    var n := |d|;
    if n > 2 {
      forall i | 0 <= i < n
        ensures d[i] == LeaderChar(n, i)
      {
        if 0 < i < n - 1 {
          assert d[i] == Repeat('.', n - 2)[i - 1];
        }
      }
    }
  }

  /**
   * Figure and leader together take up the field's width, or just the figure when it
   * is wider than the field; the leader is empty exactly then.
   */
  lemma DotsFillField(text: string, length: int)
    ensures |text| + |Dots(text, length)| == Max(length, |text|)
    ensures Dots(text, length) == "" <==> length <= |text|
  {
  }

  /** Two figures justified in the same field end at the same column when both fit. */
  lemma DotsAlign(a: string, b: string, length: int)
    requires |a| <= length && |b| <= length
    ensures |a| + |Dots(a, length)| == |b| + |Dots(b, length)|
  {
    DotsFillField(a, length);
    DotsFillField(b, length);
  }

  /** The default `length=0` used for the added-lines figure gives no leader at all. */
  lemma DotsDefault(text: string)
    ensures Dots(text, 0) == ""
  {
  }
}
