/**
 * The lesson editor of the admin pages (`LessonEditModal`): the loaded
 * lesson record and the edits made to it before it is saved as a JSON
 * download. Vocabulary and menu edits build new lists and replace one field
 * of the record; edits of the external content write into the content
 * items themselves, which the copied record shares with the one it was
 * copied from.
 */
module LessonEdit {
  import opened Wrappers
  import opened Text

  datatype VocabItem = VocabItem(word: string, phonics: string, image: Option<string>, vietnameseMeaning: string,
                                 sampleSentence: string, vietnameseTranslation: string,
                                 partOfSpeech: Option<string>, wordPronunciation: Option<string>,
                                 sentencePronunciation: Option<string>)

  datatype MenuType = ActivityType | PageType | VideoType | GoogleSlideType | EmbedPageType

  datatype MenuItem = MenuItem(kind: MenuType, id: string)

  /** An external video, slide deck or embedded page. The editor writes
      into these objects, so they are references. */
  class ContentItem {
    var id: string
    var url: string
    var title: Option<string>

    constructor(id0: string, url0: string, title0: Option<string>)
      ensures id == id0 && url == url0 && title == title0
    {
      id := id0;
      url := url0;
      title := title0;
    }
  }

  datatype ExternalContent = ExternalContent(videos: Option<seq<ContentItem>>, googleSlides: Option<seq<ContentItem>>,
                                             embedPages: Option<seq<ContentItem>>)

  /** One element of a page's content tree; the tree's JSON text is parsed
      outside this model. */
  datatype Element = Element(tag: string, cls: Option<string>, text: string)

  datatype Page = Page(id: string, title: string, root: seq<Element>, containerClassName: Option<string>)

  datatype LessonData = LessonData(background: string, title: string, description: string,
                                   vocab: seq<VocabItem>, menu: seq<MenuItem>, pages: seq<Page>,
                                   externalContent: Option<ExternalContent>)

  /** `updateLessonData('vocab', v)`: the field replaced when a record is
      loaded; with none loaded the state stays empty. */
  function WithVocab(prev: Option<LessonData>, vocab: seq<VocabItem>): (r: Option<LessonData>)
    ensures prev == None ==> r == None
    ensures prev.Some? ==> r.Some? && r.value.vocab == vocab
    ensures prev.Some? ==> r.Some? && r.value.(vocab := prev.value.vocab) == prev.value
  {
    if prev.Some? then Some(prev.value.(vocab := vocab)) else None
  }

  /** `updateLessonData('menu', m)` */
  function WithMenu(prev: Option<LessonData>, menu: seq<MenuItem>): (r: Option<LessonData>)
    ensures prev == None ==> r == None
    ensures prev.Some? ==> r.Some? && r.value.menu == menu
    ensures prev.Some? ==> r.Some? && r.value.(menu := prev.value.menu) == prev.value
  {
    if prev.Some? then Some(prev.value.(menu := menu)) else None
  }

  /** `updateLessonData('pages', p)` */
  function WithPages(prev: Option<LessonData>, pages: seq<Page>): (r: Option<LessonData>)
    ensures prev == None ==> r == None
    ensures prev.Some? ==> r.Some? && r.value.pages == pages
    ensures prev.Some? ==> r.Some? && r.value.(pages := prev.value.pages) == prev.value
  {
    if prev.Some? then Some(prev.value.(pages := pages)) else None
  }

  function VocabOf(d: Option<LessonData>): seq<VocabItem> {
    if d.Some? then d.value.vocab else []
  }

  function MenuOf(d: Option<LessonData>): seq<MenuItem> {
    if d.Some? then d.value.menu else []
  }

  /** `list.filter((_, i) => i !== index)` */
  function RemoveAt<T>(s: seq<T>, index: nat): (r: seq<T>)
    ensures index < |s| ==> |r| == |s| - 1
    ensures index < |s| ==> forall j :: 0 <= j < index ==> r[j] == s[j]
    ensures index < |s| ==> forall j :: index <= j < |r| ==> r[j] == s[j + 1]
    ensures index >= |s| ==> r == s
  {
    if index < |s| then s[..index] + s[index + 1..] else s
  }

  /** The item `addVocabItem` appends: every text field empty. */
  const BlankVocabItem := VocabItem("", "", None, "", "", "", None, None, None)

  /** `addVocabItem` */
  function AddVocabItem(d: Option<LessonData>): (r: Option<LessonData>)
    ensures d.Some? ==> r.Some? && r.value.vocab == d.value.vocab + [BlankVocabItem]
    ensures d == None ==> r == None
    ensures d.Some? ==> r.Some? && r.value.(vocab := d.value.vocab) == d.value
  {
    WithVocab(d, VocabOf(d) + [BlankVocabItem])
  }

  /** `editVocabItem(index, item)`, for the row at `index`. */
  function EditVocabItem(d: Option<LessonData>, index: nat, item: VocabItem): (r: Option<LessonData>)
    requires index < |VocabOf(d)|
    ensures r.Some? && |r.value.vocab| == |d.value.vocab| && r.value.vocab[index] == item
    ensures forall j :: 0 <= j < |VocabOf(d)| && j != index ==> r.value.vocab[j] == d.value.vocab[j]
    ensures d.Some? ==> r.Some? && r.value.(vocab := d.value.vocab) == d.value
  {
    WithVocab(d, VocabOf(d)[index := item])
  }

  /** `deleteVocabItem(index)` */
  function DeleteVocabItem(d: Option<LessonData>, index: nat): (r: Option<LessonData>)
    ensures d == None ==> r == None
    ensures d.Some? ==> r.Some? && r.value.vocab == RemoveAt(d.value.vocab, index)
    ensures d.Some? ==> r.Some? && r.value.(vocab := d.value.vocab) == d.value
  {
    WithVocab(d, RemoveAt(VocabOf(d), index))
  }

  /** The item `addMenuItem` appends. */
  const NewMenuItem := MenuItem(ActivityType, "vocabulary")

  /** `addMenuItem` */
  function AddMenuItem(d: Option<LessonData>): (r: Option<LessonData>)
    ensures d.Some? ==> r.Some? && r.value.menu == d.value.menu + [NewMenuItem]
    ensures d == None ==> r == None
    ensures d.Some? ==> r.Some? && r.value.(menu := d.value.menu) == d.value
  {
    WithMenu(d, MenuOf(d) + [NewMenuItem])
  }

  /** `deleteMenuItem(index)` */
  function DeleteMenuItem(d: Option<LessonData>, index: nat): (r: Option<LessonData>)
    ensures d == None ==> r == None
    ensures d.Some? ==> r.Some? && r.value.menu == RemoveAt(d.value.menu, index)
    ensures d.Some? ==> r.Some? && r.value.(menu := d.value.menu) == d.value
  {
    WithMenu(d, RemoveAt(MenuOf(d), index))
  }

  /** The type selector of menu row `index`. */
  function SetMenuType(d: Option<LessonData>, index: nat, kind: MenuType): (r: Option<LessonData>)
    requires index < |MenuOf(d)|
    ensures r.Some? && |r.value.menu| == |d.value.menu|
    ensures r.value.menu[index] == MenuItem(kind, d.value.menu[index].id)
    ensures forall j :: 0 <= j < |MenuOf(d)| && j != index ==> r.value.menu[j] == d.value.menu[j]
    ensures d.Some? ==> r.Some? && r.value.(menu := d.value.menu) == d.value
  {
    var m := MenuOf(d);
    WithMenu(d, m[index := m[index].(kind := kind)])
  }

  /** The id input of menu row `index`. */
  function SetMenuId(d: Option<LessonData>, index: nat, id: string): (r: Option<LessonData>)
    requires index < |MenuOf(d)|
    ensures r.Some? && |r.value.menu| == |d.value.menu|
    ensures r.value.menu[index] == MenuItem(d.value.menu[index].kind, id)
    ensures forall j :: 0 <= j < |MenuOf(d)| && j != index ==> r.value.menu[j] == d.value.menu[j]
    ensures d.Some? ==> r.Some? && r.value.(menu := d.value.menu) == d.value
  {
    var m := MenuOf(d);
    WithMenu(d, m[index := m[index].(id := id)])
  }

  function PagesOf(d: Option<LessonData>): seq<Page> {
    if d.Some? then d.value.pages else []
  }

  /** The page "Add Page" appends; `now` is the clock reading that names it. */
  function NewPage(now: nat): Page {
    Page("page-" + NatToString(now), "New Page", [Element("p", Some("text-lg"), "New page content")],
         Some("bg-white bg-opacity-90 rounded-xl p-6"))
  }

  /** "Add Page" */
  function AddPage(d: Option<LessonData>, now: nat): (r: Option<LessonData>)
    ensures d.Some? ==> r.Some? && r.value.pages == d.value.pages + [NewPage(now)]
    ensures d == None ==> r == None
    ensures d.Some? ==> r.Some? && r.value.(pages := d.value.pages) == d.value
  {
    WithPages(d, PagesOf(d) + [NewPage(now)])
  }

  /** The id input of page `index`. */
  function SetPageId(d: Option<LessonData>, index: nat, id: string): (r: Option<LessonData>)
    requires index < |PagesOf(d)|
    ensures r.Some? && |r.value.pages| == |d.value.pages|
    ensures r.value.pages[index] == d.value.pages[index].(id := id)
    ensures forall j :: 0 <= j < |PagesOf(d)| && j != index ==> r.value.pages[j] == d.value.pages[j]
    ensures d.Some? ==> r.Some? && r.value.(pages := d.value.pages) == d.value
  {
    var p := PagesOf(d);
    WithPages(d, p[index := p[index].(id := id)])
  }

  /** The title input of page `index`. */
  function SetPageTitle(d: Option<LessonData>, index: nat, title: string): (r: Option<LessonData>)
    requires index < |PagesOf(d)|
    ensures r.Some? && |r.value.pages| == |d.value.pages|
    ensures r.value.pages[index] == d.value.pages[index].(title := title)
    ensures forall j :: 0 <= j < |PagesOf(d)| && j != index ==> r.value.pages[j] == d.value.pages[j]
    ensures d.Some? ==> r.Some? && r.value.(pages := d.value.pages) == d.value
  {
    var p := PagesOf(d);
    WithPages(d, p[index := p[index].(title := title)])
  }

  /** The content text area of page `index`, given what parsing its text
      gave: text that is not valid JSON leaves the lesson as it was. */
  function SetPageRoot(d: Option<LessonData>, index: nat, parsed: Option<seq<Element>>): (r: Option<LessonData>)
    requires index < |PagesOf(d)|
    ensures parsed == None ==> r == d
    ensures parsed.Some? ==> r.Some? && |r.value.pages| == |d.value.pages|
    ensures parsed.Some? ==> r.Some? && |r.value.pages| == |d.value.pages| && r.value.pages[index] == d.value.pages[index].(root := parsed.value)
    ensures parsed.Some? ==> forall j :: 0 <= j < |PagesOf(d)| && j != index ==> r.Some? && |r.value.pages| == |d.value.pages| && r.value.pages[j] == d.value.pages[j]
    ensures d.Some? ==> r.Some? && r.value.(pages := d.value.pages) == d.value
  {
    if parsed.None? then d
    else
      var p := PagesOf(d);
      WithPages(d, p[index := p[index].(root := parsed.value)])
  }

  /** "Delete Page" */
  function DeletePage(d: Option<LessonData>, index: nat): (r: Option<LessonData>)
    ensures d == None ==> r == None
    ensures d.Some? ==> r.Some? && r.value.pages == RemoveAt(d.value.pages, index)
    ensures d.Some? ==> r.Some? && r.value.(pages := d.value.pages) == d.value
  {
    WithPages(d, RemoveAt(PagesOf(d), index))
  }

  /** A deletion keeps the other rows in order and loses only the row
      deleted. */
  lemma DeleteKeepsOthers<T>(s: seq<T>, index: nat)
    requires index < |s|
    ensures RemoveAt(s, index) == s[..index] + s[index + 1..]
    ensures multiset(RemoveAt(s, index)) + multiset{s[index]} == multiset(s)
  {
    assert s == s[..index] + [s[index]] + s[index + 1..];
  }

  /** Adding then deleting the added row gives the list back. */
  lemma AddThenDeleteVocab(d: LessonData)
    ensures DeleteVocabItem(AddVocabItem(Some(d)), |d.vocab|) == Some(d)
  {
    var v := d.vocab + [BlankVocabItem];
    assert RemoveAt(v, |d.vocab|) == d.vocab;
  }

  lemma AddThenDeleteMenu(d: LessonData)
    ensures DeleteMenuItem(AddMenuItem(Some(d)), |d.menu|) == Some(d)
  {
    var m := d.menu + [NewMenuItem];
    assert RemoveAt(m, |d.menu|) == d.menu;
  }

  datatype Section = Videos | GoogleSlides | EmbedPages

  function Items(e: ExternalContent, section: Section): Option<seq<ContentItem>> {
    match section
    case Videos => e.videos
    case GoogleSlides => e.googleSlides
    case EmbedPages => e.embedPages
  }

  /** The id or address input of an external item: `{ ...lessonData }` copies
      only the top-level record, and the write goes into the shared item, so
      the record returned and the one it was copied from both show it. */
  method EditExternal(d: LessonData, section: Section, index: nat, editId: bool, value: string)
    returns (updated: LessonData)
    requires d.externalContent.Some? && Items(d.externalContent.value, section).Some?
    requires index < |Items(d.externalContent.value, section).value|
    modifies Items(d.externalContent.value, section).value[index]
    ensures updated == d
    ensures var item := Items(d.externalContent.value, section).value[index];
      (editId ==> item.id == value && item.url == old(item.url))
      && (!editId ==> item.url == value && item.id == old(item.id))
      && item.title == old(item.title)
  {
    updated := d;
    var item := Items(updated.externalContent.value, section).value[index];
    if editId {
      item.id := value;
    } else {
      item.url := value;
    }
  }

  /** `handleSave`: the form values filed under the lesson's name, and
      the download's file name. */
  function SaveFile<V>(lessonName: string, values: V): (r: (map<string, V>, string))
    ensures r.0.Keys == {lessonName} && r.0[lessonName] == values
    ensures r.1 == lessonName + ".json"
  {
    (map[lessonName := values], lessonName + ".json")
  }
}
