/**
 * The bot's keyboards: the persistent bottom menu of five labels and the
 * inline keyboards whose buttons carry callback strings back to the router.
 * Row widths are a rendering hint and are not kept: a keyboard is the ordered
 * sequence of its buttons.
 */
module Keyboards {
  import opened Dicts

  /** An inline button: the text shown and the callback string it sends. */
  datatype Button = Button(text: string, data: string)

  datatype Keyboard =
    | Inline(buttons: seq<Button>)
    | MenuKeyboard(labels: seq<string>)
    | NoKeyboard

  const Topik1Label := "📚 TOPIK 1"
  const Topik2Label := "📚 TOPIK 2"
  const BooksLabel := "📖 서울대 한국어 1A/1B/2A/2B"
  const LettersLabel := "☀️ Harflar"
  const PremiumLabel := "💎 Premium darslar"

  /** The bottom keyboard, `main_menu`, in the order its labels were added. */
  const MainMenuLabels := [Topik1Label, Topik2Label, BooksLabel, LettersLabel, PremiumLabel]

  const BackLabel := "⬅️ Orqaga"
  const BackToMainButton := Button(BackLabel, "back_to_main")
  const BackToLettersButton := Button(BackLabel, "back_to_letters")
  const BackToBooksButton := Button(BackLabel, "show_books_menu")

  function LetterButton(key: string): Button {
    Button(key, "harf_" + key)
  }

  /** A grammar point's button sends its own key as the callback. */
  function GrammarButton(key: string): Button {
    Button(key, key)
  }

  /** The letter menu: one button per letter key, then back to the main menu. */
  function LetterKeyboard(letters: seq<Entry>): seq<Button> {
    seq(|letters|, i requires 0 <= i < |letters| => LetterButton(letters[i].0)) + [BackToMainButton]
  }

  /** A book's grammar menu: one button per grammar key, then back to the book menu. */
  function GrammarKeyboard(grammars: seq<Entry>): seq<Button> {
    seq(|grammars|, i requires 0 <= i < |grammars| => GrammarButton(grammars[i].0)) + [BackToBooksButton]
  }

  /** The book menu: the four course books, then back to the main menu. */
  const BookKeyboard := [
    Button("1A 📚", "book_1A"),
    Button("1B 📖", "book_1B"),
    Button("2A 📘", "book_2A"),
    Button("2B 📙", "book_2B"),
    BackToMainButton
  ]

  /** Builds the letter menu the way the handlers do: a button per key, then the back button. */
  method BuildLetterKeyboard(letters: seq<Entry>) returns (buttons: seq<Button>)
    ensures buttons == LetterKeyboard(letters)
  {
    buttons := [];
    var i := 0;
    while i < |letters|
      invariant 0 <= i <= |letters|
      invariant |buttons| == i
      invariant forall j :: 0 <= j < i ==> buttons[j] == LetterButton(letters[j].0)
    {
      buttons := buttons + [LetterButton(letters[i].0)];
      i := i + 1;
    }
    buttons := buttons + [BackToMainButton];
  }

  /** Builds a grammar menu: a button per grammar key, then the back button. */
  method BuildGrammarKeyboard(grammars: seq<Entry>) returns (buttons: seq<Button>)
    ensures buttons == GrammarKeyboard(grammars)
  {
    buttons := [];
    var i := 0;
    while i < |grammars|
      invariant 0 <= i <= |grammars|
      invariant |buttons| == i
      invariant forall j :: 0 <= j < i ==> buttons[j] == GrammarButton(grammars[j].0)
    {
      buttons := buttons + [GrammarButton(grammars[i].0)];
      i := i + 1;
    }
    buttons := buttons + [BackToBooksButton];
  }

  /** The labels of a keyboard, in order. */
  function Labels(buttons: seq<Button>): (ls: seq<string>)
    ensures |ls| == |buttons|
    ensures forall i :: 0 <= i < |buttons| ==> ls[i] == buttons[i].text
  {
    if buttons == [] then [] else [buttons[0].text] + Labels(buttons[1..])
  }

  /** The buttons before the last one show the keys, in order. */
  lemma {:induction false} KeyedLabels(keyed: seq<Button>, m: seq<Entry>, last: Button)
    requires |keyed| == |m|
    requires forall i :: 0 <= i < |m| ==> keyed[i].text == m[i].0
    ensures Labels(keyed + [last]) == Keys(m) + [last.text]
  {
    var ls, ks := Labels(keyed + [last]), Keys(m) + [last.text];
    assert |ls| == |ks|;
    forall i | 0 <= i < |ls|
      ensures ls[i] == ks[i]
    {
      if i < |m| {
        assert (keyed + [last])[i] == keyed[i];
      }
    }
  }

  /**
   * The letter menu lists the letter keys in order, each sending `harf_<key>`,
   * and its only `back_to_main` button is the last one.
   */
  lemma LetterKeyboardShape(letters: seq<Entry>)
    ensures Labels(LetterKeyboard(letters)) == Keys(letters) + [BackLabel]
    ensures forall i :: 0 <= i < |letters| ==>
      LetterKeyboard(letters)[i].data == "harf_" + LetterKeyboard(letters)[i].text
    ensures LetterKeyboard(letters)[|letters|] == BackToMainButton
    ensures forall i :: 0 <= i < |letters| ==> LetterKeyboard(letters)[i].data != "back_to_main"
  {
    var keyed := seq(|letters|, i requires 0 <= i < |letters| => LetterButton(letters[i].0));
    KeyedLabels(keyed, letters, BackToMainButton);
    assert LetterKeyboard(letters) == keyed + [BackToMainButton];
    forall i | 0 <= i < |letters|
      ensures keyed[i].data != "back_to_main"
    {
      HarfIsNotBackToMain(letters[i].0);
    }
  }

  lemma HarfIsNotBackToMain(key: string)
    ensures "harf_" + key != "back_to_main"
  {
    assert ("harf_" + key)[0] == 'h';
  }

  /**
   * A grammar menu lists the collection's keys in order, each button sending
   * its own key, and ends with the one button back to the book menu.
   */
  lemma GrammarKeyboardShape(grammars: seq<Entry>)
    ensures Labels(GrammarKeyboard(grammars)) == Keys(grammars) + [BackLabel]
    ensures forall i :: 0 <= i < |grammars| ==>
      GrammarKeyboard(grammars)[i].data == Keys(grammars)[i]
    ensures GrammarKeyboard(grammars)[|grammars|] == BackToBooksButton
  {
    var keyed := seq(|grammars|, i requires 0 <= i < |grammars| => GrammarButton(grammars[i].0));
    KeyedLabels(keyed, grammars, BackToBooksButton);
  }
}
