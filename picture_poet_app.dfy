/** The Picture Poet page component: its state (one field per React state
    hook), the handlers that update it, and the pure expressions the handlers
    use to build the generation request and the download file names. The two
    remote flows are oracles: photo analysis is one pre-decided outcome, and
    poem generation runs the retry flow of `PoemFlow` on pre-decided prompt
    outcomes. */
module PicturePoet {
  import opened JsStrings
  import opened PoemFlow

  const DefaultLength: string := "medium"
  const DefaultTone: string := "reflective"
  const KeywordSeparator: string := ", "
  const ContextLabel: string := "Additional context: "

  const NoKeywordsError: string :=
    "Cannot generate poem without keywords. Please upload and analyze a photo first."
  const AnalysisError: string := "Failed to analyze photo. Please try again."
  const GenerationError: string := "Failed to generate poem. Please try again or adjust the style."

  const ImageSuffix: string := "_picture_poet.png"
  const PoemSuffix: string := "_poem.txt"
  const ImageFallback: string := "photo"
  const PoemFallback: string := "poem"
  const DefaultPoemFileName: string := "picture_poet_poem.txt"

  /** The file the user picked; only its name matters here. */
  datatype ImageFile = ImageFile(name: string)

  /** What the photo-analysis flow does: resolve with keywords, or reject. */
  datatype AnalysisOutcome = Extracted(keywords: seq<string>) | AnalysisFailed

  datatype DownloadKind = TextKind | ImageKind
  /** One call of `downloadFile(content, filename, type)`. */
  datatype Download = Download(content: string, filename: string, kind: DownloadKind)

  datatype SaveToast = ContentSaved | NothingToSave

  // ---------------------------------------------------------------------
  // The generation request

  /** The first sentence of every style description. */
  function StyleBase(length: string, tone: string): string {
    "A " + length + " poem with a " + tone + " tone. "
  }

  /** The style sent with a generation request: the length and tone
      sentence, then the custom prompt behind a label when there is one. */
  function StyleDescription(length: string, tone: string, customPrompt: string): (r: string)
    ensures StyleBase(length, tone) <= r
    ensures customPrompt == "" <==> r == StyleBase(length, tone)
    ensures customPrompt != "" ==> r[|StyleBase(length, tone)|..] == ContextLabel + customPrompt
  {
    StyleBase(length, tone) + (if customPrompt != "" then ContextLabel + customPrompt else "")
  }

  /** The custom prompt reaches the style verbatim: for a given length and
      tone, different custom prompts give different style descriptions. */
  lemma StyleKeepsCustomPrompt(length: string, tone: string, c1: string, c2: string)
    requires StyleDescription(length, tone, c1) == StyleDescription(length, tone, c2)
    ensures c1 == c2
  {
    var n := |StyleBase(length, tone)|;
    if c1 != "" && c2 != "" {
      assert ContextLabel + c1 == StyleDescription(length, tone, c1)[n..];
      assert (ContextLabel + c1)[|ContextLabel|..] == c1;
      assert (ContextLabel + c2)[|ContextLabel|..] == c2;
    }
  }

  /** The keywords field of a generation request. */
  function KeywordsParam(keywords: seq<string>): (r: string)
    ensures |keywords| == 0 ==> r == ""
    ensures |keywords| == 1 ==> r == keywords[0]
    ensures |keywords| > 0 ==> keywords[0] <= r
  {
    Join(keywords, KeywordSeparator)
  }

  /** Keywords without commas can be read back from the request, each one
      whole and in the order the analysis gave them. */
  lemma KeywordsParamKeepsOrder(keywords: seq<string>)
    requires |keywords| > 0
    requires forall i :: 0 <= i < |keywords| ==> ',' !in keywords[i]
    ensures Unjoin(KeywordsParam(keywords), KeywordSeparator) == keywords
  {
    assert KeywordSeparator[0] == ',' && KeywordSeparator[1..] == " ";
    UnjoinJoin(keywords, KeywordSeparator);
  }

  /** Generation needs a keyword list that exists and is not empty. */
  predicate KeywordsReady(keywords: Option<seq<string>>)
    ensures keywords.None? ==> !KeywordsReady(keywords)
    ensures keywords == Some([]) ==> !KeywordsReady(keywords)
    ensures keywords.Some? && |keywords.value| > 0 ==> KeywordsReady(keywords)
  {
    keywords.Some? && |keywords.value| > 0
  }

  // ---------------------------------------------------------------------
  // Download file names

  /** `name.substring(0, name.lastIndexOf('.'))`: the part of the file name
      before its last dot, and "" when the name has no dot. */
  function FileStem(name: string): (r: string)
    ensures '.' !in name ==> r == ""
    ensures '.' in name ==>
      |r| < |name| && name[|r|] == '.' && r == name[..|r|] && '.' !in name[|r| + 1..]
  {
    var k := LastIndexOf(name, '.');
    Substring(name, 0, k)
  }

  /** A name made of a stem, a dot and a dot-free extension has that stem. */
  lemma StemOfDottedName(stem: string, ext: string)
    requires '.' !in ext
    ensures FileStem(stem + "." + ext) == stem
  {
    var name := stem + "." + ext;
    forall j | |stem| < j < |name| ensures name[j] != '.' {
      assert name[j] == ext[j - |stem| - 1];
    }
    LastIndexOfIs(name, '.', |stem|);
    assert name[..|stem|] == stem;
  }

  /** The name under which the photo is saved. */
  function ImageFileName(name: string): (r: string)
    ensures |r| >= |ImageSuffix| && r[|r| - |ImageSuffix|..] == ImageSuffix
    ensures '.' !in name ==> r == ImageFallback + ImageSuffix
  {
    OrElse(FileStem(name), ImageFallback) + ImageSuffix
  }

  /** The name under which the poem is saved. */
  function PoemFileName(file: Option<ImageFile>): (r: string)
    ensures file.None? ==> r == DefaultPoemFileName
    ensures file.Some? ==> |r| >= |PoemSuffix| && r[|r| - |PoemSuffix|..] == PoemSuffix
    ensures file.Some? && '.' !in file.value.name ==> r == PoemFallback + PoemSuffix
  {
    if file.Some? then OrElse(FileStem(file.value.name), PoemFallback) + PoemSuffix
    else DefaultPoemFileName
  }

  /** Both saved files are named after the photo's stem, or after their
      fallbacks when that stem is empty. */
  lemma SavedNamesFollowStem(stem: string, ext: string)
    requires '.' !in ext
    ensures ImageFileName(stem + "." + ext)
      == (if stem == "" then ImageFallback else stem) + ImageSuffix
    ensures PoemFileName(Some(ImageFile(stem + "." + ext)))
      == (if stem == "" then PoemFallback else stem) + PoemSuffix
  {
    StemOfDottedName(stem, ext);
  }

  /** Save reports success when there is a photo to save or a poem. A photo
      whose file is unknown is not saved and does not count. */
  predicate SaveSucceeds(uploadedImage: Option<string>, imageFile: Option<ImageFile>,
                         generatedPoem: Option<string>)
    ensures Truthy(generatedPoem) ==> SaveSucceeds(uploadedImage, imageFile, generatedPoem)
    ensures Truthy(uploadedImage) && imageFile.Some? ==> SaveSucceeds(uploadedImage, imageFile, generatedPoem)
    ensures imageFile.None? && !Truthy(generatedPoem) ==> !SaveSucceeds(uploadedImage, imageFile, generatedPoem)
    ensures !Truthy(uploadedImage) && !Truthy(generatedPoem) ==> !SaveSucceeds(uploadedImage, imageFile, generatedPoem)
  {
    (Truthy(uploadedImage) && imageFile.Some?) || Truthy(generatedPoem)
  }

  // ---------------------------------------------------------------------
  // The component

  class App {
    var uploadedImage: Option<string>
    var imageFile: Option<ImageFile>
    var imageKeywords: Option<seq<string>>
    var generatedPoem: Option<string>
    var poemLength: string
    var poemTone: string
    var customPrompt: string
    var isLoadingKeywords: bool
    var isLoadingPoem: bool
    var error: Option<string>
    /** Bumped on every new poem to replay its animation. */
    var poemKey: nat

    /** The state on first render. */
    constructor ()
      ensures uploadedImage == None && imageFile == None
      ensures imageKeywords == None && generatedPoem == None
      ensures poemLength == DefaultLength && poemTone == DefaultTone && customPrompt == ""
      ensures !isLoadingKeywords && !isLoadingPoem
      ensures error == None && poemKey == 0
    {
      uploadedImage, imageFile := None, None;
      imageKeywords, generatedPoem := None, None;
      poemLength, poemTone, customPrompt := DefaultLength, DefaultTone, "";
      isLoadingKeywords, isLoadingPoem := false, false;
      error, poemKey := None, 0;
    }

    /** The condition under which the page starts analysing by itself:
        a photo is loaded, it has no keywords yet and none are being fetched. */
    predicate AutoAnalyzeDue()
      reads this
      ensures AutoAnalyzeDue() ==> Truthy(uploadedImage) && !isLoadingKeywords
      // any keyword list stops the trigger, even an empty one (an array is truthy)
      ensures imageKeywords.Some? ==> !AutoAnalyzeDue()
      // while the trigger is due, generation is not possible yet
      ensures AutoAnalyzeDue() ==> !KeywordsReady(imageKeywords)
    {
      Truthy(uploadedImage) && imageKeywords.None? && !isLoadingKeywords
    }

    /** The file input changed: the first chosen file, if any, is kept. */
    method ChooseFile(file: Option<ImageFile>)
      modifies this`imageFile
      ensures imageFile == (if file.Some? then file else old(imageFile))
    {
      if file.Some? {
        imageFile := file;
      }
    }

    /** The file reader finished: its result (a data URI, or null when the
        read failed or was aborted) becomes the photo, and every result derived
        from the previous photo is cleared. */
    method LoadEnded(readerResult: Option<string>)
      modifies this`uploadedImage, this`error, this`generatedPoem, this`imageKeywords
      ensures uploadedImage == readerResult
      ensures error == None && generatedPoem == None && imageKeywords == None
      ensures Truthy(readerResult) && !isLoadingKeywords ==> AutoAnalyzeDue()
      ensures !Truthy(readerResult) ==> !AutoAnalyzeDue()
    {
      uploadedImage := readerResult;
      error := None;
      generatedPoem := None;
      imageKeywords := None;
    }

    /** Analyse the photo. Without a photo nothing happens and nothing is
        sent; otherwise the photo is sent, and the analysis's keywords or its
        error message are kept. Returns the photo sent, if any. */
    method AnalyzePhoto(outcome: AnalysisOutcome) returns (request: Option<string>)
      modifies this`isLoadingKeywords, this`error, this`imageKeywords
      ensures !Truthy(uploadedImage) ==>
        && request == None
        && isLoadingKeywords == old(isLoadingKeywords)
        && error == old(error)
        && imageKeywords == old(imageKeywords)
      ensures Truthy(uploadedImage) ==>
        && request == Some(uploadedImage.value)
        && !isLoadingKeywords
        && match outcome
           case Extracted(keywords) => imageKeywords == Some(keywords) && error == None
           case AnalysisFailed => imageKeywords == old(imageKeywords) && error == Some(AnalysisError)
      // a success satisfies the automatic trigger; a failure re-arms it
      ensures Truthy(uploadedImage) && outcome.Extracted? ==> !AutoAnalyzeDue()
      ensures Truthy(uploadedImage) && outcome.AnalysisFailed? && old(imageKeywords).None? ==>
        AutoAnalyzeDue()
    {
      if !Truthy(uploadedImage) {
        request := None;
        return;
      }
      isLoadingKeywords := true;
      error := None;
      request := Some(uploadedImage.value);
      match outcome {
        case Extracted(keywords) =>
          imageKeywords := Some(keywords);
        case AnalysisFailed =>
          error := Some(AnalysisError);
      }
      isLoadingKeywords := false;
    }

    /** Generate a poem from the keywords. Without keywords only the error is
        set and nothing is sent. Otherwise the request is built from the
        keywords and the style, the retry flow runs on `outcomes`, and its
        poem (with a new animation key) or the generation error is kept.
        Returns the request sent, if any. */
    method GeneratePoem(outcomes: seq<PromptOutcome>) returns (request: Option<PoemInput>)
      requires MaxRetries <= |outcomes|
      modifies this`isLoadingPoem, this`error, this`generatedPoem, this`poemKey
      ensures !KeywordsReady(imageKeywords) ==>
        && request == None
        && error == Some(NoKeywordsError)
        && isLoadingPoem == old(isLoadingPoem)
        && generatedPoem == old(generatedPoem)
        && poemKey == old(poemKey)
      ensures KeywordsReady(imageKeywords) ==>
        && request == Some(PoemInput(KeywordsParam(imageKeywords.value),
                                     Some(StyleDescription(poemLength, poemTone, customPrompt))))
        && !isLoadingPoem
        && var r := Verdict(outcomes[StopAttempt(outcomes)]);
           if r.Returned? then
             generatedPoem == Some(r.output.poem) && poemKey == old(poemKey) + 1 && error == None
           else
             generatedPoem == old(generatedPoem) && poemKey == old(poemKey)
             && error == Some(GenerationError)
    {
      if !KeywordsReady(imageKeywords) {
        error := Some(NoKeywordsError);
        request := None;
        return;
      }
      isLoadingPoem := true;
      error := None;
      var style := StyleDescription(poemLength, poemTone, customPrompt);
      var input := PoemInput(KeywordsParam(imageKeywords.value), Some(style));
      request := Some(input);
      var result, _, _ := GeneratePoemFromKeywords(input, outcomes);
      if result.Returned? {
        generatedPoem := Some(result.output.poem);
        poemKey := poemKey + 1;
      } else {
        error := Some(GenerationError);
      }
      isLoadingPoem := false;
    }

    /** Save the creation: download the photo when there is one and a file
        name for it, then the poem when there is one; report whether anything
        was saved. Returns the downloads, in order, and the toast shown. */
    method SaveCreation() returns (downloads: seq<Download>, toast: SaveToast)
      ensures |downloads| ==
        (if Truthy(uploadedImage) && imageFile.Some? then 1 else 0) + (if Truthy(generatedPoem) then 1 else 0)
      ensures Truthy(uploadedImage) && imageFile.Some? ==>
        downloads[0] == Download(uploadedImage.value, ImageFileName(imageFile.value.name), ImageKind)
      ensures Truthy(generatedPoem) ==>
        downloads[|downloads| - 1] == Download(generatedPoem.value, PoemFileName(imageFile), TextKind)
      ensures toast == (if SaveSucceeds(uploadedImage, imageFile, generatedPoem) then ContentSaved else NothingToSave)
      ensures toast == ContentSaved <==> |downloads| > 0
    {
      downloads := [];
      if Truthy(uploadedImage) && imageFile.Some? {
        downloads := downloads + [Download(uploadedImage.value, ImageFileName(imageFile.value.name), ImageKind)];
      }
      if Truthy(generatedPoem) {
        downloads := downloads + [Download(generatedPoem.value, PoemFileName(imageFile), TextKind)];
      }
      if SaveSucceeds(uploadedImage, imageFile, generatedPoem) {
        toast := ContentSaved;
      } else {
        toast := NothingToSave;
      }
    }
  }
}
