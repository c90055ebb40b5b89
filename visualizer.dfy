/**
 * The visualizer page: a prompt, an image generated from it, a download
 * whose file name is derived from the prompt, and a like/dislike toggle.
 * The image service is a parameter: its image, or `None` when it throws.
 */
module Visualizer {
  import opened Js

  predicate IsAsciiLetter(c: char) {
    'a' <= c <= 'z' || 'A' <= c <= 'Z'
  }

  /** The characters `[a-z0-9]` matches under the `i` flag. */
  predicate IsAsciiAlnum(c: char) {
    IsAsciiLetter(c) || IsDigit(c)
  }

  /** The characters a sanitised stem is made of. */
  predicate IsStemChar(c: char) {
    'a' <= c <= 'z' || IsDigit(c) || c == '_'
  }

  /** `toLowerCase` on one character of `[A-Za-z0-9_]`. */
  function LowerChar(c: char): (d: char)
    ensures 'A' <= c <= 'Z' ==> 'a' <= d <= 'z' && d as int == c as int + 32
    ensures !('A' <= c <= 'Z') ==> d == c
  {
    if 'A' <= c <= 'Z' then (c as int + 32) as char else c
  }

  /** `replace(/[^a-z0-9]/gi, '_')`: every character that is not an ASCII letter or digit becomes `_`. */
  function ReplaceNonAlnum(s: string): (r: string)
    ensures |r| == |s|
    ensures forall i | 0 <= i < |s| :: r[i] == (if IsAsciiAlnum(s[i]) then s[i] else '_')
  {
    if s == [] then []
    else ReplaceNonAlnum(s[..|s| - 1]) + [if IsAsciiAlnum(s[|s| - 1]) then s[|s| - 1] else '_']
  }

  /** `toLowerCase()` on a string of ASCII letters, digits and underscores. */
  function LowerAscii(s: string): (r: string)
    ensures |r| == |s|
    ensures forall i | 0 <= i < |s| :: r[i] == LowerChar(s[i])
  {
    if s == [] then [] else LowerAscii(s[..|s| - 1]) + [LowerChar(s[|s| - 1])]
  }

  /**
   * The file-name stem: as long as the prompt, each ASCII letter lowered,
   * each digit kept, every other character an underscore.
   */
  function Sanitize(prompt: string): (stem: string)
    ensures |stem| == |prompt|
    ensures forall i | 0 <= i < |prompt| :: IsStemChar(stem[i])
    ensures forall i | 0 <= i < |prompt| ::
      stem[i] == (if IsAsciiAlnum(prompt[i]) then LowerChar(prompt[i]) else '_')
  {
    LowerAscii(ReplaceNonAlnum(prompt))
  }

  /** Sanitising a stem changes nothing. */
  lemma SanitizeIdempotent(prompt: string)
    ensures Sanitize(Sanitize(prompt)) == Sanitize(prompt)
  {
    var stem := Sanitize(prompt);
    forall i | 0 <= i < |stem|
      ensures Sanitize(stem)[i] == stem[i]
    {
      assert IsStemChar(stem[i]);
    }
  }

  /** The fixed points of the sanitiser are exactly the strings over `[a-z0-9_]`. */
  lemma SanitizeFixedPoints(s: string)
    ensures Sanitize(s) == s <==> forall i | 0 <= i < |s| :: IsStemChar(s[i])
  {
    if forall i | 0 <= i < |s| :: IsStemChar(s[i]) {
      forall i | 0 <= i < |s|
        ensures Sanitize(s)[i] == s[i]
      {
        assert IsStemChar(s[i]);
      }
    }
  }

  /** Letters are lowered, digits kept, and the space and the `!` become underscores. */
  lemma SanitizeExample()
    ensures Sanitize("Cat 2!") == "cat_2_"
  {
    var stem := Sanitize("Cat 2!");
    assert stem[0] == 'c' && stem[1] == 'a' && stem[2] == 't';
    assert stem[3] == '_' && stem[4] == '2' && stem[5] == '_';
  }

  /** `` `hwninja-${stem}.png` `` */
  function FileName(prompt: string): (name: string)
    ensures |name| == |prompt| + 12
    ensures name[..8] == "hwninja-" && name[|name| - 4..] == ".png"
    ensures name[8..|name| - 4] == Sanitize(prompt)
  {
    "hwninja-" + Sanitize(prompt) + ".png"
  }

  /** The like/dislike state: none, like or dislike. */
  datatype Feedback = NoFeedback | Like | Dislike

  class VisualizerPage {
    var prompt: string
    var isLoading: bool
    var generatedImage: Option<string>
    var feedback: Feedback

    constructor ()
      ensures prompt == "" && !isLoading && generatedImage == None && feedback == NoFeedback
    {
      prompt, isLoading, generatedImage, feedback := "", false, None, NoFeedback;
    }

    /**
     * `handleGenerateImage`: a prompt with no text once trimmed is refused
     * with no call and no change; otherwise the old image and feedback are
     * cleared, the new image is kept on success, and loading ends false.
     */
    method GenerateImage(reply: Option<string>) returns (called: bool)
      modifies this
      ensures prompt == old(prompt)
      ensures called <==> Trim(prompt) != ""
      ensures !called ==> isLoading == old(isLoading) && generatedImage == old(generatedImage) && feedback == old(feedback)
      ensures called ==> generatedImage == reply && feedback == NoFeedback && !isLoading
    {
      if Trim(prompt) == "" {
        return false;
      }
      called := true;
      isLoading := true;
      generatedImage := None;
      feedback := NoFeedback;
      if reply.Some? {
        generatedImage := reply;
      }
      isLoading := false;
    }

    /** `handleDownload`: the download's file name, or `None` when there is no image to download. */
    method Download() returns (fileName: Option<string>)
      ensures fileName.None? <==> !TruthyOpt(generatedImage)
      ensures fileName.Some? ==> fileName.value == FileName(prompt)
    {
      if !TruthyOpt(generatedImage) {
        return None;
      }
      fileName := Some(FileName(prompt));
    }

    /** The thumbs-up and thumbs-down buttons: each sets exactly its own value. */
    method Rate(value: Feedback)
      requires value != NoFeedback
      modifies this
      ensures feedback == value
      ensures prompt == old(prompt) && isLoading == old(isLoading) && generatedImage == old(generatedImage)
    {
      feedback := value;
    }
  }
}
