/**
 * The game menu (`games/index`): the registry from component name to game,
 * and `gameInfo`, the games a lesson offers. Nine games are always offered;
 * the three picture games are added when some word has a picture, and the
 * cloze game when the lesson has cloze data.
 */
module GameRegistry {
  import opened Wrappers
  import opened Text

  /** `gameComponents`: the names the registry resolves. */
  const Components: set<string> := {
    "AnagramGame", "MatchingGame", "MultipleChoiceEnViGame", "MultipleChoiceViEnGame",
    "PictureChoiceEnGame", "MemoryGame", "ClozeGame", "ImageRevealChoiceGame",
    "ListeningTypingEnGame", "PictureTypingEnGame", "UnjumbleGame",
    "ListeningSentenceTypingGame", "VietnameseToEnglishTranslationGame"
  }

  datatype GameEntry = GameEntry(title: string, component: string, icon: string)

  /** The games of the menu; `MenuName` is the key `gameInfo` files each
      under. */
  datatype Game = Matching | Anagram | ChoiceEnVi | ChoiceViEn | Memory | ListeningTyping | Unjumble
                | ListeningSentences | VietnameseToEnglish | PictureChoice | ImageReveal | PictureTyping | Cloze

  function MenuName(g: Game): string {
    match g
    case Matching => "Matching Game"
    case Anagram => "Anagram Game"
    case ChoiceEnVi => "Multiple Choice En→Vi"
    case ChoiceViEn => "Multiple Choice Vi→En"
    case Memory => "Memory Game"
    case ListeningTyping => "Listening & Typing"
    case Unjumble => "Unjumble Game"
    case ListeningSentences => "Listening Sentences"
    case VietnameseToEnglish => "Vietnamese to English"
    case PictureChoice => "Picture Choice"
    case ImageReveal => "Image Reveal"
    case PictureTyping => "Picture Typing"
    case Cloze => "Cloze Game"
  }

  /** The entry stored under each menu name. */
  function Entry(g: Game): GameEntry {
    match g
    case Matching => GameEntry("Matching Game", "MatchingGame", "🎮")
    case Anagram => GameEntry("Anagram Game", "AnagramGame", "🎮")
    case ChoiceEnVi => GameEntry("Multiple Choice (EN → VI)", "MultipleChoiceEnViGame", "🎮")
    case ChoiceViEn => GameEntry("Multiple Choice (VI → EN)", "MultipleChoiceViEnGame", "🎮")
    case Memory => GameEntry("Memory Game", "MemoryGame", "🎮")
    case ListeningTyping => GameEntry("Listening & Typing", "ListeningTypingEnGame", "🎮")
    case Unjumble => GameEntry("Unjumble Game", "UnjumbleGame", "🎮")
    case ListeningSentences => GameEntry("Listening & Typing Sentences", "ListeningSentenceTypingGame", "🎮")
    case VietnameseToEnglish => GameEntry("Vietnamese to English Translation", "VietnameseToEnglishTranslationGame", "🎮")
    case PictureChoice => GameEntry("Picture Choice", "PictureChoiceEnGame", "🎮")
    case ImageReveal => GameEntry("Image Reveal Choice", "ImageRevealChoiceGame", "🎮")
    case PictureTyping => GameEntry("Picture Typing", "PictureTypingEnGame", "🎮")
    case Cloze => GameEntry("Cloze Game", "ClozeGame", "📝")
  }

  /** Every component a menu entry names can be looked up in the registry. */
  lemma ComponentRegistered(g: Game)
    ensures Entry(g).component in Components
  {
    match g
    case Matching =>
    case Anagram =>
    case ChoiceEnVi =>
    case ChoiceViEn =>
    case Memory =>
    case ListeningTyping =>
    case Unjumble =>
    case ListeningSentences =>
    case VietnameseToEnglish =>
    case PictureChoice =>
    case ImageReveal =>
    case PictureTyping =>
    case Cloze =>
  }

  /** The only field of a vocabulary item that `gameInfo` reads. */
  datatype VocabItem = VocabItem(image: Option<string>)

  /** `v.image && v.image.trim() !== ''` */
  predicate HasPicture(v: VocabItem) {
    v.image.Some? && v.image.value != "" && Trim(v.image.value) != ""
  }

  /** `vocabData.some(...)` */
  function HasImages(vocab: seq<VocabItem>): (r: bool)
    ensures r <==> exists k :: 0 <= k < |vocab| && HasPicture(vocab[k])
    decreases |vocab|
  {
    if vocab == [] then false
    else if HasPicture(vocab[0]) then true
    else
      assert forall k :: 1 <= k < |vocab| ==> vocab[k] == vocab[1..][k - 1];
      HasImages(vocab[1..])
  }

  /** The nine games every lesson offers, in the order they are filed. */
  const BaseGames: seq<Game> := [Matching, Anagram, ChoiceEnVi, ChoiceViEn, Memory, ListeningTyping,
                                 Unjumble, ListeningSentences, VietnameseToEnglish]
  const PictureGames: seq<Game> := [PictureChoice, ImageReveal, PictureTyping]

  /** No game is filed twice. */
  predicate Distinct(games: seq<Game>) {
    forall i, j :: 0 <= i < j < |games| ==> games[i] != games[j]
  }

  /** The position of each game in the full menu. */
  function Rank(g: Game): nat {
    match g
    case Matching => 0
    case Anagram => 1
    case ChoiceEnVi => 2
    case ChoiceViEn => 3
    case Memory => 4
    case ListeningTyping => 5
    case Unjumble => 6
    case ListeningSentences => 7
    case VietnameseToEnglish => 8
    case PictureChoice => 9
    case ImageReveal => 10
    case PictureTyping => 11
    case Cloze => 12
  }

  predicate Rising(s: seq<Game>) {
    forall i :: 0 <= i < |s| - 1 ==> Rank(s[i]) < Rank(s[i + 1])
  }

  /** Joining two rising menus, the first ranking below the second. */
  lemma RisingAppend(a: seq<Game>, b: seq<Game>)
    requires Rising(a) && Rising(b) && a != [] && b != [] && Rank(a[|a| - 1]) < Rank(b[0])
    ensures Rising(a + b)
  {
    var s := a + b;
    forall i | 0 <= i < |s| - 1
      ensures Rank(s[i]) < Rank(s[i + 1])
    {
      if i < |a| - 1 {
        assert s[i] == a[i] && s[i + 1] == a[i + 1];
      } else if i == |a| - 1 {
        assert s[i] == a[i] && s[i + 1] == b[0];
      } else {
        assert s[i] == b[i - |a|] && s[i + 1] == b[i - |a| + 1];
      }
    }
  }

  lemma BaseRising()
    ensures Rising(BaseGames) && Rising(PictureGames) && Rising([Cloze])
  {
  }

  lemma MenuRising(games: seq<Game>, hasImages: bool, hasCloze: bool)
    requires games == (if hasImages then BaseGames + PictureGames else BaseGames) + (if hasCloze then [Cloze] else [])
    ensures Rising(games)
  {
    BaseRising();
    var first := if hasImages then BaseGames + PictureGames else BaseGames;
    if hasImages {
      RisingAppend(BaseGames, PictureGames);
    }
    if hasCloze {
      RisingAppend(first, [Cloze]);
    } else {
      assert games == first;
    }
  }

  /** The base games rank below the picture games, and those below the
      cloze game. */
  lemma BaseRanks()
    ensures forall k :: 0 <= k < |BaseGames| ==> Rank(BaseGames[k]) <= 8
    ensures forall k :: 0 <= k < |PictureGames| ==> 9 <= Rank(PictureGames[k]) <= 11
  {
  }

  lemma MenuMembers(games: seq<Game>, hasImages: bool, hasCloze: bool)
    requires games == (if hasImages then BaseGames + PictureGames else BaseGames) + (if hasCloze then [Cloze] else [])
    ensures forall g :: g in PictureGames ==> (g in games <==> hasImages)
    ensures Cloze in games <==> hasCloze
  {
    BaseRanks();
    var first := if hasImages then BaseGames + PictureGames else BaseGames;
    assert forall k :: 0 <= k < |first| ==> Rank(first[k]) <= (if hasImages then 11 else 8) by {
      if hasImages {
        assert forall k :: 9 <= k < 12 ==> first[k] == PictureGames[k - 9];
      }
    }
    assert forall g :: g in first ==> Rank(g) <= (if hasImages then 11 else 8);
    if hasImages {
      assert forall g :: g in PictureGames ==> g in first;
    }
    if hasCloze {
      assert games[|games| - 1] == Cloze;
    } else {
      assert games == first;
    }
  }

  /** A menu whose ranks rise step by step files no game twice and every
      later game ranks higher. */
  lemma {:induction false} RisingDistinct(s: seq<Game>)
    requires Rising(s)
    ensures forall i, j :: 0 <= i < j < |s| ==> Rank(s[i]) < Rank(s[j])
    ensures Distinct(s)
    decreases |s|
  {
    if |s| > 1 {
      var tail := s[1..];
      assert Rising(tail) by {
        assert forall i :: 0 <= i < |tail| ==> tail[i] == s[i + 1];
      }
      RisingDistinct(tail);
      assert forall j :: 1 <= j < |s| ==> s[j] == tail[j - 1];
      assert forall j :: 1 <= j < |s| ==> Rank(s[0]) < Rank(s[j]) by {
        assert Rank(s[0]) < Rank(s[1]);
      }
    }
  }

  /** `gameInfo({vocabData, hasClozeData})`: the games of the returned
      record in insertion order; each is filed under `MenuName` with
      `Entry`. */
  method GameInfo(vocab: seq<VocabItem>, hasClozeData: bool) returns (games: seq<Game>)
    ensures |games| == 9 + (if HasImages(vocab) then 3 else 0) + (if hasClozeData then 1 else 0)
    ensures games[..9] == BaseGames && Distinct(games)
    ensures forall g :: g in PictureGames ==> (g in games <==> HasImages(vocab))
    ensures Cloze in games <==> hasClozeData
    ensures forall k :: 0 <= k < |games| ==> Entry(games[k]).component in Components
  {
    games := BaseGames;
    if HasImages(vocab) {
      games := games + PictureGames;
    }
    if hasClozeData {
      games := games + [Cloze];
    }
    MenuRising(games, HasImages(vocab), hasClozeData);
    RisingDistinct(games);
    MenuMembers(games, HasImages(vocab), hasClozeData);
    forall k | 0 <= k < |games|
      ensures Entry(games[k]).component in Components
    {
      ComponentRegistered(games[k]);
    }
  }
}
