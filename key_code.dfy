/**
 * The key-code translator: a total mapping from the platform's logical keys
 * to the shell's small set of semantic key codes, and their text rendering.
 */
module KeyCodes {
  import P = Platform

  /** Modifier keys held down, as the input context last saw them. */
  datatype KeyboardModifiers = KeyboardModifiers(shift: bool, control: bool, alt: bool, command: bool)

  /** `KeyboardModifiers::default()`: nothing held. */
  const NoModifiers := KeyboardModifiers(false, false, false, false)

  /** Semantic key codes, named after the US keyboard. */
  datatype KeyCode =
    | Character(text: string, shift: bool)
    | AltOrOption
    | BackspaceOrDelete
    | CapsLock
    | Control
    | Enter
    | Command
    | Shift
    | Space
    | Tab
    | FDelete
    | ArrowDown
    | ArrowLeft
    | ArrowRight
    | ArrowUp
    | Escape
    | Home
    | End
    | PageDown
    | PageUp
    | NonConvert

  /**
   * Translates a logical key. Character keys carry the shift flag; Meta and
   * Super both become Command; every key outside the table is NonConvert.
   */
  function KeyEventToCode(key: P.Key, mods: KeyboardModifiers): (code: KeyCode)
    ensures code.Character? <==> key.Character?
    ensures key.Character? ==> code.text == key.text && code.shift == mods.shift
    ensures code.NonConvert? <==> key.Unrecognized?
  {
    match key
    case Character(c) => Character(c, mods.shift)
    case Alt => AltOrOption
    case CapsLock => CapsLock
    case Control => Control
    case Shift => Shift
    case Meta => Command
    case Super => Command
    case Enter => Enter
    case Tab => Tab
    case Space => Space
    case ArrowDown => ArrowDown
    case ArrowLeft => ArrowLeft
    case ArrowRight => ArrowRight
    case ArrowUp => ArrowUp
    case End => End
    case Home => Home
    case PageDown => PageDown
    case PageUp => PageUp
    case Backspace => BackspaceOrDelete
    case Delete => FDelete
    case Escape => Escape
    case Unrecognized(_) => NonConvert
  }

  /** The platform's aliases: Meta and Super are one key, Backspace and Delete are not. */
  lemma Aliases(mods: KeyboardModifiers)
    ensures KeyEventToCode(P.Key.Meta, mods) == KeyEventToCode(P.Key.Super, mods) == Command
    ensures KeyEventToCode(P.Key.Backspace, mods) == BackspaceOrDelete
    ensures KeyEventToCode(P.Key.Delete, mods) == FDelete
  {
  }

  /** Only the shift flag is consulted, and only for character keys. */
  lemma ModifiersOnlyTagCharacters(key: P.Key, m1: KeyboardModifiers, m2: KeyboardModifiers)
    ensures !key.Character? ==> KeyEventToCode(key, m1) == KeyEventToCode(key, m2)
    ensures m1.shift == m2.shift ==> KeyEventToCode(key, m1) == KeyEventToCode(key, m2)
  {
  }

  /**
   * Two recognized keys share a code only when they are Meta and Super: the
   * translation loses no other distinction.
   */
  lemma TranslationInjective(k1: P.Key, k2: P.Key, mods: KeyboardModifiers)
    requires KeyEventToCode(k1, mods) == KeyEventToCode(k2, mods) != NonConvert
    ensures k1 == k2 || ((k1.Meta? || k1.Super?) && (k2.Meta? || k2.Super?))
  {
  }

  /** Rust's rendering of a `bool`. */
  function ShiftText(b: bool): (s: string)
    ensures |s| == (if b then 4 else 5)
  {
    if b then "true" else "false"
  }

  /** The `Display` rendering of a key code. */
  function Display(code: KeyCode): (s: string)
    ensures code.Character? ==> code.text <= s && |s| >= |code.text| + 16
    ensures !code.Character? ==> 1 <= |s| <= 13
  {
    match code
    case Character(c, shift) => c + " with shift " + ShiftText(shift)
    case AltOrOption => "Alt"
    case BackspaceOrDelete => "Backspace"
    case CapsLock => "CapsLock"
    case Control => "Control"
    case Enter => "Enter"
    case Command => "Command"
    case Shift => "Shift"
    case Space => " "
    case Tab => "Tab"
    case FDelete => "ForwardDelete"
    case ArrowDown => "ArrowDown"
    case ArrowLeft => "ArrowLeft"
    case ArrowRight => "ArrowRight"
    case ArrowUp => "ArrowUp"
    case Escape => "Escape"
    case Home => "Home"
    case End => "End"
    case PageDown => "PageDown"
    case PageUp => "PageUp"
    case NonConvert => "NonConvert"
  }

  /** Renderings the shell relies on when it logs key codes. */
  lemma DisplayNames(c: string, shift: bool)
    ensures Display(Character(c, shift)) == c + " with shift " + ShiftText(shift)
    ensures Display(Space) == " " && Display(AltOrOption) == "Alt"
    ensures Display(BackspaceOrDelete) == "Backspace" && Display(FDelete) == "ForwardDelete"
  {
  }

  /**
   * Rendering is injective: distinct key codes never print the same text, so
   * a logged code identifies the code (the 20 named codes print pairwise
   * distinct names, and no name looks like a rendered character).
   */
  lemma DisplayInjective(a: KeyCode, b: KeyCode)
    requires Display(a) == Display(b)
    ensures a == b
  {
    var s := Display(a);
    if a.Character? && b.Character? {
      // The last-but-one letter tells "true" from "false".
      var n := |s|;
      assert s[n - 2] == (if a.shift then 'u' else 's') by {
        assert s == a.text + " with shift " + ShiftText(a.shift);
      }
      assert s[n - 2] == (if b.shift then 'u' else 's') by {
        assert s == b.text + " with shift " + ShiftText(b.shift);
      }
      assert a.shift == b.shift;
      assert |a.text| == |b.text|;
      assert a.text == s[..|a.text|] == b.text;
    }
  }
}
