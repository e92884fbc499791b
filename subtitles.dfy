/** The subtitle cue, as the subtitle library represents it: a numbered, timed piece of text.
    Both the cleaner and the translator rewrite the fields of these items in place. */
module Subtitles {
  import opened Seqs

  /** A timecode, in milliseconds. Only comparisons and copies of timecodes occur here. */
  type Time = int

  /** The value of one cue at one moment. */
  datatype Cue = Cue(index: int, start: Time, end: Time, text: string)

  /** One subtitle item; its fields are assigned in place. */
  class Subtitle {
    var index: int
    var start: Time
    var end: Time
    var text: string

    constructor (index: int, start: Time, end: Time, text: string)
      ensures Value() == Cue(index, start, end, text)
    {
      this.index := index;
      this.start := start;
      this.end := end;
      this.text := text;
    }

    function Value(): Cue
      reads this
    {
      Cue(index, start, end, text)
    }
  }

  /** The values of a list of items, position by position. */
  function Values(subs: seq<Subtitle>): seq<Cue>
    reads subs
  {
    seq(|subs|, i reads subs requires 0 <= i < |subs| => subs[i].Value())
  }

  /** The texts of a list of items, position by position. */
  function Texts(subs: seq<Subtitle>): seq<string>
    reads subs
  {
    seq(|subs|, i reads subs requires 0 <= i < |subs| => subs[i].text)
  }

  lemma TextsSlice(subs: seq<Subtitle>, i: nat, j: nat)
    requires i <= j <= |subs|
    ensures Texts(subs[i..j]) == Texts(subs)[i..j]
  {
  }

  lemma ValuesPick(subs: seq<Subtitle>, idx: seq<nat>)
    requires InRange(idx, |subs|)
    ensures Values(Pick(subs, idx)) == Pick(Values(subs), idx)
  {
  }
}
