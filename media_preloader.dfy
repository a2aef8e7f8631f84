/**
 * The media preloader (`media-preloader`): the picture and sound addresses
 * a lesson file names, collected in a fixed order so they can be fetched
 * ahead of time. Only present, non-empty fields are collected, and nothing
 * is de-duplicated. The fetching itself is not part of this model.
 */
module MediaPreloader {
  import opened Wrappers
  import Sublists

  datatype VocabItem = VocabItem(word: string, translation: string, sentence: string, image: Option<string>,
                                 wordPronunciation: Option<string>, sentencePronunciation: Option<string>)
  datatype Question = Question(question: string, options: seq<string>, correctAnswer: int, image: Option<string>)
  datatype ReadingSlide = ReadingSlide(text: string, image: Option<string>, audio: Option<string>)
  datatype ContentBlock = ContentBlock(kind: string, src: Option<string>)
  datatype Page = Page(title: string, content: Option<seq<ContentBlock>>)
  datatype LessonData = LessonData(background: Option<string>, title: string, description: string,
                                   vocab: Option<seq<VocabItem>>, questions: Option<seq<Question>>,
                                   readingSlidesData: Option<seq<ReadingSlide>>, pages: Option<seq<Page>>)

  /** A JavaScript-truthy string field: present and not empty. */
  predicate Truthy(o: Option<string>) {
    o.Some? && o.value != ""
  }

  /** The field's address, when it is truthy. */
  function Present(o: Option<string>): (r: seq<string>)
    ensures |r| == (if Truthy(o) then 1 else 0)
    ensures Truthy(o) ==> r[0] == o.value
  {
    if Truthy(o) then [o.value] else []
  }

  /** The addresses of each entry, one entry after another. */
  function Gather<T>(f: T -> seq<string>, s: seq<T>): seq<string>
    decreases |s|
  {
    if s == [] then [] else Gather(f, s[..|s| - 1]) + f(s[|s| - 1])
  }

  lemma GatherStep<T>(f: T -> seq<string>, s: seq<T>, i: nat)
    requires i < |s|
    ensures Gather(f, s[..i + 1]) == Gather(f, s[..i]) + f(s[i])
  {
    assert s[..i + 1][..i] == s[..i];
  }

  lemma GatherAll<T>(s: seq<T>)
    ensures s[..|s|] == s
  {
  }

  /** No entry gives an empty address, so neither does the whole list. */
  lemma {:induction false} GatherNonEmpty<T>(f: T -> seq<string>, s: seq<T>)
    requires forall k, j :: 0 <= k < |s| && 0 <= j < |f(s[k])| ==> f(s[k])[j] != ""
    ensures forall j :: 0 <= j < |Gather(f, s)| ==> Gather(f, s)[j] != ""
    decreases |s|
  {
    if s != [] {
      var init := s[..|s| - 1];
      assert forall k :: 0 <= k < |init| ==> init[k] == s[k];
      GatherNonEmpty(f, init);
    }
  }

  /** When every entry gives at most one address, the list is as long as
      the number of entries that give one: there is no de-duplication. */
  lemma {:induction false} GatherCount<T>(f: T -> seq<string>, p: T -> bool, s: seq<T>)
    requires forall k :: 0 <= k < |s| ==> |f(s[k])| == (if p(s[k]) then 1 else 0)
    ensures |Gather(f, s)| == Sublists.Count(p, s)
    decreases |s|
  {
    if s != [] {
      var init := s[..|s| - 1];
      assert forall k :: 0 <= k < |init| ==> init[k] == s[k];
      GatherCount(f, p, init);
      CountSnoc(p, init, s[|s| - 1]);
      assert init + [s[|s| - 1]] == s;
    }
  }

  lemma {:induction false} CountSnoc<T>(p: T -> bool, s: seq<T>, x: T)
    ensures Sublists.Count(p, s + [x]) == Sublists.Count(p, s) + (if p(x) then 1 else 0)
    decreases |s|
  {
    if s != [] {
      assert (s + [x])[1..] == s[1..] + [x];
      CountSnoc(p, s[1..], x);
    }
  }

  function VocabImage(v: VocabItem): seq<string> { Present(v.image) }
  function QuestionImage(q: Question): seq<string> { Present(q.image) }
  function SlideImage(r: ReadingSlide): seq<string> { Present(r.image) }
  function SlideAudio(r: ReadingSlide): seq<string> { Present(r.audio) }
  function VocabAudio(v: VocabItem): seq<string> { Present(v.wordPronunciation) + Present(v.sentencePronunciation) }

  /** `block.type === 'image' && block.src` */
  function BlockImage(b: ContentBlock): (r: seq<string>)
    ensures |r| == (if b.kind == "image" && Truthy(b.src) then 1 else 0)
  {
    if b.kind == "image" then Present(b.src) else []
  }

  function PageImages(p: Page): seq<string> {
    if p.content.Some? then Gather(BlockImage, p.content.value) else []
  }

  function Section<T>(f: T -> seq<string>, o: Option<seq<T>>): seq<string> {
    if o.Some? then Gather(f, o.value) else []
  }

  /** The images in order: background, vocabulary, questions, reading
      slides, then image blocks of the pages. */
  function ImageUrls(d: LessonData): seq<string> {
    Present(d.background) + Section(VocabImage, d.vocab) + Section(QuestionImage, d.questions)
    + Section(SlideImage, d.readingSlidesData) + Section(PageImages, d.pages)
  }

  /** The sounds in order: each word's then its sentence's pronunciation,
      then the reading slides' audio. */
  function AudioUrls(d: LessonData): seq<string> {
    Section(VocabAudio, d.vocab) + Section(SlideAudio, d.readingSlidesData)
  }

  /** `extractImageUrls(lessonData)` */
  method ExtractImageUrls(d: LessonData) returns (urls: seq<string>)
    ensures urls == ImageUrls(d)
  {
    urls := Present(d.background);
    urls := AppendSection(urls, VocabImage, d.vocab);
    urls := AppendSection(urls, QuestionImage, d.questions);
    urls := AppendSection(urls, SlideImage, d.readingSlidesData);
    if d.pages.Some? {
      urls := AppendPages(urls, d.pages.value);
    }
  }

  /** `if (section) section.forEach(...)` */
  method AppendSection<T>(start: seq<string>, f: T -> seq<string>, o: Option<seq<T>>) returns (urls: seq<string>)
    ensures urls == start + Section(f, o)
  {
    urls := start;
    if o.Some? {
      urls := AppendEach(urls, f, o.value);
    }
  }

  /** The nested `forEach` over the pages and their blocks. */
  method AppendPages(start: seq<string>, pages: seq<Page>) returns (urls: seq<string>)
    ensures urls == start + Gather(PageImages, pages)
  {
    urls := start;
    for i := 0 to |pages|
      invariant urls == start + Gather(PageImages, pages[..i])
    {
      GatherStep(PageImages, pages, i);
      if pages[i].content.Some? {
        urls := AppendEach(urls, BlockImage, pages[i].content.value);
      }
    }
    GatherAll(pages);
  }

  /** `extractAudioUrls(lessonData)` */
  method ExtractAudioUrls(d: LessonData) returns (urls: seq<string>)
    ensures urls == AudioUrls(d)
  {
    urls := [];
    if d.vocab.Some? {
      var vocab := d.vocab.value;
      for i := 0 to |vocab|
        invariant urls == Gather(VocabAudio, vocab[..i])
      {
        GatherStep(VocabAudio, vocab, i);
        if Truthy(vocab[i].wordPronunciation) {
          urls := urls + [vocab[i].wordPronunciation.value];
        }
        if Truthy(vocab[i].sentencePronunciation) {
          urls := urls + [vocab[i].sentencePronunciation.value];
        }
      }
      GatherAll(vocab);
    }
    urls := AppendSection(urls, SlideAudio, d.readingSlidesData);
  }

  /** One `forEach` that pushes the addresses of each entry. */
  method AppendEach<T>(start: seq<string>, f: T -> seq<string>, s: seq<T>) returns (urls: seq<string>)
    ensures urls == start + Gather(f, s)
  {
    urls := start;
    for i := 0 to |s|
      invariant urls == start + Gather(f, s[..i])
    {
      GatherStep(f, s, i);
      urls := urls + f(s[i]);
    }
    GatherAll(s);
  }

  /** Every collected address is non-empty. */
  lemma ImageUrlsNonEmpty(d: LessonData)
    ensures forall j :: 0 <= j < |ImageUrls(d)| ==> ImageUrls(d)[j] != ""
  {
    if d.vocab.Some? { GatherNonEmpty(VocabImage, d.vocab.value); }
    if d.questions.Some? { GatherNonEmpty(QuestionImage, d.questions.value); }
    if d.readingSlidesData.Some? { GatherNonEmpty(SlideImage, d.readingSlidesData.value); }
    if d.pages.Some? {
      var pages := d.pages.value;
      forall k | 0 <= k < |pages| && pages[k].content.Some?
        ensures forall j :: 0 <= j < |PageImages(pages[k])| ==> PageImages(pages[k])[j] != ""
      {
        GatherNonEmpty(BlockImage, pages[k].content.value);
      }
      GatherNonEmpty(PageImages, pages);
    }
  }

  lemma AudioUrlsNonEmpty(d: LessonData)
    ensures forall j :: 0 <= j < |AudioUrls(d)| ==> AudioUrls(d)[j] != ""
  {
    if d.vocab.Some? { GatherNonEmpty(VocabAudio, d.vocab.value); }
    if d.readingSlidesData.Some? { GatherNonEmpty(SlideAudio, d.readingSlidesData.value); }
  }

  /** The vocabulary contributes one image per item with a picture, repeats
      included. */
  lemma VocabImagesCounted(vocab: seq<VocabItem>)
    ensures |Gather(VocabImage, vocab)| == Sublists.Count((v: VocabItem) => Truthy(v.image), vocab)
  {
    GatherCount(VocabImage, (v: VocabItem) => Truthy(v.image), vocab);
  }

  /** A lesson with no sections and no background names no media. */
  lemma EmptyLessonNoMedia(title: string, description: string)
    ensures ImageUrls(LessonData(None, title, description, None, None, None, None)) == []
    ensures AudioUrls(LessonData(None, title, description, None, None, None, None)) == []
  {
  }
}
