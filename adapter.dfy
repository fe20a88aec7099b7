/** The adapter between the chat page and the direct chat stream (src/ui/adapter.py):
    the user's text and files become message parts, and every answer chunk of the
    stream becomes one display update holding all the text received so far.

    Reading a file is the parameter `read`, the MIME guess from a path is `guess`, and
    sending the parts to the chat session is `send`. */
module Adapter {
  import opened Wrappers
  import opened Types
  import opened Chat

  /** What the page sends and what it displays. */
  datatype UserInput = UserInput(text: string, files: seq<string>)

  /** Shown while no text has arrived. */
  const Placeholder := "What"

  /** The MIME type of a file: the given one, else the one guessed from its path. */
  function MimeOf(path: string, given: Option<string>, guess: string -> Option<string>): Option<string> {
    if given.Some? then given else guess(path)
  }

  /** `handle_files`: the assertion fails when some file has no MIME type; otherwise one
      part per file, in order, holding the file's bytes and its MIME type. */
  method HandleFiles(files: seq<(string, Option<string>)>, guess: string -> Option<string>,
                     read: string -> seq<bv8>)
    returns (r: Result<seq<Part>, Error>)
    ensures r.Failure? <==> exists i :: 0 <= i < |files| && MimeOf(files[i].0, files[i].1, guess).None?
    ensures r.Failure? ==> r.error == AssertionError
    ensures r.Success? ==>
              && |r.value| == |files|
              && forall i :: 0 <= i < |files| ==>
                   && MimeOf(files[i].0, files[i].1, guess).Some?
                   && r.value[i] == BytesPart(read(files[i].0), MimeOf(files[i].0, files[i].1, guess).value)
  {
    var parts: seq<Part> := [];
    var i := 0;
    while i < |files|
      invariant 0 <= i <= |files|
      invariant |parts| == i
      invariant forall j :: 0 <= j < i ==>
                  && MimeOf(files[j].0, files[j].1, guess).Some?
                  && parts[j] == BytesPart(read(files[j].0), MimeOf(files[j].0, files[j].1, guess).value)
    {
      var path := files[i].0;
      var mimeType := files[i].1;
      if mimeType.None? {
        mimeType := guess(path);
      }
      if mimeType.None? {
        return Failure(AssertionError);
      }
      parts := parts + [BytesPart(read(path), mimeType.value)];
      i := i + 1;
    }
    return Success(parts);
  }

  /** Every file of the input has a guessable MIME type. */
  predicate AllGuessed(content: UserInput, guess: string -> Option<string>) {
    forall i :: 0 <= i < |content.files| ==> guess(content.files[i]).Some?
  }

  /** The parts of a message: the text part, then one part per file in order. */
  function Extracted(content: UserInput, guess: string -> Option<string>, read: string -> seq<bv8>)
    : Result<seq<Part>, Error>
  {
    if !AllGuessed(content, guess) then Failure(AssertionError)
    else
      var files := content.files;
      Success([TextPart(Some(content.text))]
              + seq(|files|, i requires 0 <= i < |files| => BytesPart(read(files[i]), guess(files[i]).value)))
  }

  /** The extracted parts start with the text, then hold exactly one part per file in
      input order, each with the file's bytes and guessed type; extraction fails exactly
      when some file's type cannot be guessed. */
  lemma ExtractedShape(content: UserInput, guess: string -> Option<string>, read: string -> seq<bv8>)
    ensures var r := Extracted(content, guess, read);
            && (r.Failure? <==> exists i :: 0 <= i < |content.files| && guess(content.files[i]).None?)
            && (r.Success? ==>
                  && |r.value| == |content.files| + 1
                  && r.value[0] == TextPart(Some(content.text))
                  && forall i :: 0 <= i < |content.files| ==>
                       r.value[i + 1] == BytesPart(read(content.files[i]), guess(content.files[i]).value))
  {
  }

  /** `extract_parts`: every file is passed without a MIME type. */
  method ExtractParts(content: UserInput, guess: string -> Option<string>, read: string -> seq<bv8>)
    returns (r: Result<seq<Part>, Error>)
    ensures r == Extracted(content, guess, read)
  {
    var files := content.files;
    var paths := seq(|files|, i requires 0 <= i < |files| => (files[i], None));
    assert forall i :: 0 <= i < |files| ==> MimeOf(paths[i].0, paths[i].1, guess) == guess(files[i]);
    var fileParts := HandleFiles(paths, guess, read);
    if fileParts.Failure? {
      return Failure(fileParts.error);
    }
    assert AllGuessed(content, guess);
    assert fileParts.value == seq(|files|, i requires 0 <= i < |files| => BytesPart(read(files[i]), guess(files[i]).value));
    var textPart := TextPart(Some(content.text));
    r := Success([textPart] + fileParts.value);
  }

  /** The text of a chunk's first part; a part without text gives "". */
  function FirstText(chunk: seq<Part>): string
    requires |chunk| > 0
  {
    if chunk[0].TextPart? && chunk[0].text.Some? then chunk[0].text.value else ""
  }

  predicate NonEmptyChunks(chunks: seq<seq<Part>>) {
    forall i :: 0 <= i < |chunks| ==> |chunks[i]| > 0
  }

  /** The text accumulated over the chunks. */
  function AccText(chunks: seq<seq<Part>>): string
    requires NonEmptyChunks(chunks)
  {
    if |chunks| == 0 then "" else AccText(chunks[..|chunks| - 1]) + FirstText(chunks[|chunks| - 1])
  }

  /** The text displayed for an accumulated text. */
  function Shown(text: string): string {
    if text == "" then Placeholder else text
  }

  /** The display updates for the answer chunks: one per chunk, with the text
      accumulated up to and including that chunk, and no files. */
  function Displays(chunks: seq<seq<Part>>): seq<UserInput>
    requires NonEmptyChunks(chunks)
  {
    seq(|chunks|, i requires 0 <= i < |chunks| => UserInput(Shown(AccText(chunks[..i + 1])), []))
  }

  /** Accumulation only appends: the text after fewer chunks is a prefix of the text
      after more, and grows by exactly the next chunk's first text. */
  lemma {:induction false} AccTextPrefix(chunks: seq<seq<Part>>, i: nat, j: nat)
    requires NonEmptyChunks(chunks)
    requires i <= j <= |chunks|
    ensures AccText(chunks[..i]) <= AccText(chunks[..j])
    ensures j < |chunks| ==> AccText(chunks[..j + 1]) == AccText(chunks[..j]) + FirstText(chunks[j])
    decreases j - i
  {
    if j < |chunks| {
      assert chunks[..j + 1][..j] == chunks[..j];
    }
    if i < j {
      AccTextPrefix(chunks, i + 1, j);
      AccTextPrefix(chunks, i, i);
    }
  }

  /** Every update shows some text and no files; once some text has arrived the
      placeholder is never shown again unless it is the text itself, and each later
      update shows a continuation of every earlier one. */
  lemma DisplaysGrow(chunks: seq<seq<Part>>, i: nat, j: nat)
    requires NonEmptyChunks(chunks)
    requires i <= j < |chunks|
    ensures var d := Displays(chunks);
            && |d| == |chunks|
            && d[i].text != "" && d[i].files == []
            && (AccText(chunks[..i + 1]) != "" ==> d[i].text <= d[j].text && d[j].text == AccText(chunks[..j + 1]))
  {
    AccTextPrefix(chunks, i + 1, j + 1);
  }

  lemma DisplaysSnoc(chunks: seq<seq<Part>>, n: nat)
    requires NonEmptyChunks(chunks) && n < |chunks|
    ensures Displays(chunks[..n + 1]) == Displays(chunks[..n]) + [UserInput(Shown(AccText(chunks[..n + 1])), [])]
  {
    var a, b := chunks[..n + 1], chunks[..n];
    forall k | 0 <= k < n ensures Displays(a)[k] == Displays(b)[k] {
      assert a[..k + 1] == chunks[..k + 1] == b[..k + 1];
    }
    assert a[..n + 1] == a;
  }

  /** The accumulation loop of `ui_to_chat`. */
  method UiStream(response: seq<seq<Part>>) returns (outs: seq<UserInput>)
    requires NonEmptyChunks(response)
    ensures outs == Displays(response)
  {
    var text := "";
    outs := [];
    var i := 0;
    while i < |response|
      invariant 0 <= i <= |response|
      invariant text == AccText(response[..i])
      invariant outs == Displays(response[..i])
    {
      var chunk := response[i];
      AccTextPrefix(response, i, i);
      text := text + FirstText(chunk);
      outs := outs + [UserInput(if text == "" then Placeholder else text, [])];
      DisplaysSnoc(response, i);
      i := i + 1;
    }
    assert response[..i] == response;
  }

  /** `ui_to_chat`: fails like `extract_parts`; otherwise the display updates of the
      chat's answer to the extracted parts. */
  method UiToChat(message: UserInput, guess: string -> Option<string>, read: string -> seq<bv8>,
                  send: seq<Part> -> seq<Chunk>)
    returns (r: Result<seq<UserInput>, Error>)
    ensures Extracted(message, guess, read).Failure? ==> r == Failure(AssertionError)
    ensures Extracted(message, guess, read).Success? ==>
              var response := AnswerStream(send(Extracted(message, guess, read).value));
              NonEmptyChunks(response) && r == Success(Displays(response))
  {
    var parts := ExtractParts(message, guess, read);
    if parts.Failure? {
      return Failure(parts.error);
    }
    var response := AnswerStream(send(parts.value));
    AnswerStreamShape(send(parts.value));
    var outs := UiStream(response);
    r := Success(outs);
  }
}
