/**
 * The prompt `generateBio` sends for a job description (`bio`) and a vibe:
 * a fixed template with the vibe's tone word, a humour request for the
 * "Funny" vibe only, and the description, closed with a full stop unless it
 * already ends in one.
 */
module PromptTemplate {

  /** The tone word: "relaxed" for "Casual", "silly" for "Funny", "Professional" otherwise. */
  function ToneWord(vibe: string): string {
    if vibe == "Casual" then "relaxed"
    else if vibe == "Funny" then "silly"
    else "Professional"
  }

  const HumourRequest := "Make the linkedin job summary humorous"

  /** The humour request, present for the "Funny" vibe and empty otherwise. */
  function Humour(vibe: string): string {
    if vibe == "Funny" then HumourRequest else ""
  }

  const OpeningStart := "Generate 4 "

  /** The first sentences of the template, around the tone word. */
  function Opening(tone: string): string {
    OpeningStart + tone + OpeningRest
  }

  /** The opening sentences after the tone word. */
  const OpeningRest :=
    " linkedin job summary with no hashtags " + "and clearly labeled " + "\"1.\", \"2.\", \"3.\" and \"4.\". " +
    "Only return these 4 " + "linkedin job summary, " + "nothing else. "


  const Closing :=
    "Make sure " + "each generated summary is less than 800 characters, " +
    "has short sentences that are found in linkedin job summary, " +
    "and feel free to use this context as well: "

  /** `bio.slice(-1) === "."`: the last character is a full stop (never true of ""). */
  predicate EndsWithDot(bio: string) {
    |bio| > 0 && bio[|bio| - 1] == '.'
  }

  /** Everything the template puts before the description. */
  function Instructions(vibe: string): string {
    Opening(ToneWord(vibe)) + Humour(vibe) + Closing
  }

  /** The description as it closes the prompt: with a full stop added unless it has one. */
  function Dotted(bio: string): (d: string)
    ensures |d| > 0 && d[|d| - 1] == '.'
    ensures EndsWithDot(bio) ==> d == bio
    ensures !EndsWithDot(bio) ==> d == bio + "."
  {
    if EndsWithDot(bio) then bio else bio + "."
  }

  /**
   * The prompt for a description and a vibe, as the template literal builds
   * it: the instructions, then the description with its full stop.
   */
  function Prompt(bio: string, vibe: string): (p: string)
    ensures |p| > 0 && p[|p| - 1] == '.'
  {
    Instructions(vibe) + Dotted(bio)
  }

  /** An empty description still gets its full stop: `"".slice(-1)` is not ".". */
  lemma EmptyDescription(vibe: string)
    ensures Prompt("", vibe) == Instructions(vibe) + "."
  {
  }

  /** The tone word stands right after "Generate 4 ". */
  lemma ToneWordInPrompt(bio: string, vibe: string)
    ensures Prompt(bio, vibe)[|OpeningStart|..|OpeningStart| + |ToneWord(vibe)|] == ToneWord(vibe)
  {
    var p := Prompt(bio, vibe);
    var tone := ToneWord(vibe);
    assert p == OpeningStart + tone + (p[|OpeningStart| + |tone|..]);
  }

  /** The text `w` sits after `o` in `o + h + c + d` exactly when `h` is `w`, if `c` does not start with `w`. */
  lemma WindowAfter(o: string, h: string, c: string, d: string, w: string)
    requires h == w || h == ""
    requires |w| <= |c| && exists j :: 0 <= j < |w| && c[j] != w[j]
    ensures |o| + |w| <= |o + h + c + d|
    ensures (o + h + c + d)[|o|..|o| + |w|] == w <==> h == w
  {
    var p := o + h + c + d;
    if h == w {
      assert p[|o|..|o| + |w|] == h;
    } else {
      assert p[|o|..|o| + |w|] == c[..|w|];
    }
  }

  /**
   * The humour request follows the opening sentences exactly when the vibe
   * is "Funny"; for any other vibe the closing sentence starts there instead.
   */
  lemma HumourOnlyWhenFunny(bio: string, vibe: string)
    ensures var k := |Opening(ToneWord(vibe))|;
            var p := Prompt(bio, vibe);
            k + |HumourRequest| <= |p| &&
            (p[k..k + |HumourRequest|] == HumourRequest <==> vibe == "Funny")
  {
    assert Closing[5] != HumourRequest[5];
    WindowAfter(Opening(ToneWord(vibe)), Humour(vibe), Closing, Dotted(bio), HumourRequest);
  }

  /**
   * Two prompts are equal exactly when their vibes give the same tone word
   * and their descriptions agree once the full stop is added: "x" and "x."
   * give the same prompt, "Casual" and "Funny" never do.
   */
  lemma PromptEquality(bio1: string, vibe1: string, bio2: string, vibe2: string)
    ensures Prompt(bio1, vibe1) == Prompt(bio2, vibe2) <==>
            ToneWord(vibe1) == ToneWord(vibe2) && Dotted(bio1) == Dotted(bio2)
  {
    if Prompt(bio1, vibe1) == Prompt(bio2, vibe2) {
      SamePromptSameTone(bio1, vibe1, bio2, vibe2);
    }
    if ToneWord(vibe1) == ToneWord(vibe2) {
      SameToneSameInstructions(vibe1, vibe2);
      PrefixCancels(Instructions(vibe1), Dotted(bio1), Dotted(bio2));
    }
  }

  /** The prompt's letter after "Generate 4 " is the tone word's first letter. */
  lemma ToneLetter(bio: string, vibe: string)
    ensures |OpeningStart| < |Prompt(bio, vibe)|
    ensures Prompt(bio, vibe)[|OpeningStart|] == ToneWord(vibe)[0]
  {
    ToneWordInPrompt(bio, vibe);
    var i, t := |OpeningStart|, ToneWord(vibe);
    assert Prompt(bio, vibe)[i..i + |t|][0] == t[0];
  }

  /** The tone words differ in their first letter, so equal prompts have equal tone words. */
  lemma SamePromptSameTone(bio1: string, vibe1: string, bio2: string, vibe2: string)
    requires Prompt(bio1, vibe1) == Prompt(bio2, vibe2)
    ensures ToneWord(vibe1) == ToneWord(vibe2)
  {
    ToneLetter(bio1, vibe1);
    ToneLetter(bio2, vibe2);
    FirstLetterDecidesTone(vibe1, vibe2);
  }

  /** "relaxed", "silly" and "Professional" start with different letters. */
  lemma FirstLetterDecidesTone(vibe1: string, vibe2: string)
    requires ToneWord(vibe1)[0] == ToneWord(vibe2)[0]
    ensures ToneWord(vibe1) == ToneWord(vibe2)
  {
  }

  /** The instructions depend on the vibe only through its tone word. */
  lemma SameToneSameInstructions(vibe1: string, vibe2: string)
    requires ToneWord(vibe1) == ToneWord(vibe2)
    ensures Instructions(vibe1) == Instructions(vibe2)
  {
    assert Humour(vibe1) == Humour(vibe2);
  }

  lemma PrefixCancels(a: string, x: string, y: string)
    ensures a + x == a + y <==> x == y
  {
    if a + x == a + y {
      assert x == (a + x)[|a|..] == (a + y)[|a|..] == y;
    }
  }
}
