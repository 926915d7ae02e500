/** The shared buffer of characters to type: how one cell is drawn from a
    random number, and the five-character window shown above the player. */
module HitText {
  import opened Config

  /** The character a cell receives from a non-negative random number: one
      of the 25 letters 'a' to 'y' ('z' never appears). */
  function HitChar(r: nat): (c: char)
    ensures 'a' <= c <= 'y'
  {
    (r % 25 + 97) as char
  }

  /** Every letter from 'a' to 'y' can be drawn. */
  lemma HitCharCoversAToY(c: char)
    requires 'a' <= c <= 'y'
    ensures HitChar(c as int - 97) == c
  {
  }

  /** The characters shown from the cursor on, wrapping around the end of
      the buffer. */
  function Window(text: seq<char>, start: nat): (w: seq<char>)
    requires |text| == HIT_TEXT_CAPACITY
    ensures |w| == RENDER_TEXT_SIZE
  {
    seq(RENDER_TEXT_SIZE, i requires 0 <= i < RENDER_TEXT_SIZE => text[(start + i) % HIT_TEXT_CAPACITY])
  }

  /** The first shown character is the one the next keystroke is checked
      against. */
  lemma WindowStartsAtExpected(text: seq<char>, start: nat)
    requires |text| == HIT_TEXT_CAPACITY && start < HIT_TEXT_CAPACITY
    ensures Window(text, start)[0] == text[start]
  {
  }

  /** Advancing the cursor by one (around the buffer) scrolls the window by
      one character: the first drops out and the next one comes in. */
  lemma WindowScrolls(text: seq<char>, start: nat)
    requires |text| == HIT_TEXT_CAPACITY && start < HIT_TEXT_CAPACITY
    ensures Window(text, (start + 1) % HIT_TEXT_CAPACITY)
         == Window(text, start)[1..] + [text[(start + RENDER_TEXT_SIZE) % HIT_TEXT_CAPACITY]]
  {
    var next := (start + 1) % HIT_TEXT_CAPACITY;
    var scrolled := Window(text, start)[1..] + [text[(start + RENDER_TEXT_SIZE) % HIT_TEXT_CAPACITY]];
    forall i | 0 <= i < RENDER_TEXT_SIZE
      ensures Window(text, next)[i] == scrolled[i]
    {
      assert (next + i) % HIT_TEXT_CAPACITY == (start + 1 + i) % HIT_TEXT_CAPACITY;
    }
  }
}
