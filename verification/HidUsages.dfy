/** Key codes, and the tables that turn HID usages and modifier bits into them. */
module HidUsages {
  import opened Options

  /** The keys that the tables below name, by their Linux key codes. */
  datatype Key =
    | KEY_A | KEY_B | KEY_C | KEY_D | KEY_E | KEY_F | KEY_G | KEY_H | KEY_I | KEY_J | KEY_K | KEY_L | KEY_M
    | KEY_N | KEY_O | KEY_P | KEY_Q | KEY_R | KEY_S | KEY_T | KEY_U | KEY_V | KEY_W | KEY_X | KEY_Y | KEY_Z
    | KEY_1 | KEY_2 | KEY_3 | KEY_4 | KEY_5 | KEY_6 | KEY_7 | KEY_8 | KEY_9 | KEY_0 | KEY_ENTER | KEY_ESC
    | KEY_BACKSPACE | KEY_TAB | KEY_SPACE | KEY_MINUS | KEY_EQUAL | KEY_LEFTBRACE | KEY_RIGHTBRACE
    | KEY_BACKSLASH | KEY_SEMICOLON | KEY_APOSTROPHE | KEY_GRAVE | KEY_COMMA | KEY_DOT | KEY_SLASH
    | KEY_CAPSLOCK | KEY_F1 | KEY_F2 | KEY_F3 | KEY_F4 | KEY_F5 | KEY_F6 | KEY_F7 | KEY_F8 | KEY_F9 | KEY_F10
    | KEY_F11 | KEY_F12 | KEY_SYSRQ | KEY_SCROLLLOCK | KEY_PAUSE | KEY_INSERT | KEY_HOME | KEY_PAGEUP
    | KEY_DELETE | KEY_END | KEY_PAGEDOWN | KEY_RIGHT | KEY_LEFT | KEY_DOWN | KEY_UP | KEY_NUMLOCK
    | KEY_KPSLASH | KEY_KPASTERISK | KEY_KPMINUS | KEY_KPPLUS | KEY_KPENTER | KEY_KP1 | KEY_KP2 | KEY_KP3
    | KEY_KP4 | KEY_KP5 | KEY_KP6 | KEY_KP7 | KEY_KP8 | KEY_KP9 | KEY_KP0 | KEY_KPDOT | KEY_102ND
    | KEY_COMPOSE | KEY_POWER | KEY_KPEQUAL | KEY_F13 | KEY_F14 | KEY_F15 | KEY_F16 | KEY_F17 | KEY_F18
    | KEY_F19 | KEY_F20 | KEY_F21 | KEY_F22 | KEY_F23 | KEY_F24 | KEY_RO | KEY_KATAKANAHIRAGANA | KEY_YEN
    | KEY_HENKAN | KEY_MUHENKAN | KEY_KPJPCOMMA | KEY_RIGHTCTRL | KEY_RIGHTALT | KEY_LINEFEED | KEY_LEFTCTRL
    | KEY_LEFTSHIFT | KEY_LEFTALT | KEY_LEFTMETA | KEY_RIGHTSHIFT | KEY_RIGHTMETA | KEY_ISO_LEVEL3_SHIFT
    | KEY_ISO_LEVEL5_SHIFT | KEY_FN

  /** A key code: one of those, or any other. */
  datatype Code = Named(key: Key) | Custom(name: string)

  /** The key for each bit of a boot report's modifier byte. */
  const MOD_BITS: seq<Key> := [
    KEY_LEFTCTRL, KEY_LEFTSHIFT, KEY_LEFTALT, KEY_LEFTMETA,
    KEY_RIGHTCTRL, KEY_RIGHTSHIFT, KEY_RIGHTALT, KEY_RIGHTMETA
  ]

  /** The key for a usage of a boot report's key bytes; usage 0 is "no event". */
  function HidToKey(usage: int): Option<Key> {
    if usage < 0x3A then TypingKey(usage)
    else if usage < 0x87 then ControlKey(usage)
    else if usage < 0xE0 then InternationalKey(usage)
    else ModifierKey(usage)
  }

  /** Usages 0x04 to 0x39: letters, digits, symbols and Caps Lock. */
  function TypingKey(usage: int): Option<Key> {
    match usage
    case 0x04 => Some(KEY_A)
    case 0x05 => Some(KEY_B)
    case 0x06 => Some(KEY_C)
    case 0x07 => Some(KEY_D)
    case 0x08 => Some(KEY_E)
    case 0x09 => Some(KEY_F)
    case 0x0A => Some(KEY_G)
    case 0x0B => Some(KEY_H)
    case 0x0C => Some(KEY_I)
    case 0x0D => Some(KEY_J)
    case 0x0E => Some(KEY_K)
    case 0x0F => Some(KEY_L)
    case 0x10 => Some(KEY_M)
    case 0x11 => Some(KEY_N)
    case 0x12 => Some(KEY_O)
    case 0x13 => Some(KEY_P)
    case 0x14 => Some(KEY_Q)
    case 0x15 => Some(KEY_R)
    case 0x16 => Some(KEY_S)
    case 0x17 => Some(KEY_T)
    case 0x18 => Some(KEY_U)
    case 0x19 => Some(KEY_V)
    case 0x1A => Some(KEY_W)
    case 0x1B => Some(KEY_X)
    case 0x1C => Some(KEY_Y)
    case 0x1D => Some(KEY_Z)
    case 0x1E => Some(KEY_1)
    case 0x1F => Some(KEY_2)
    case 0x20 => Some(KEY_3)
    case 0x21 => Some(KEY_4)
    case 0x22 => Some(KEY_5)
    case 0x23 => Some(KEY_6)
    case 0x24 => Some(KEY_7)
    case 0x25 => Some(KEY_8)
    case 0x26 => Some(KEY_9)
    case 0x27 => Some(KEY_0)
    case 0x28 => Some(KEY_ENTER)
    case 0x29 => Some(KEY_ESC)
    case 0x2A => Some(KEY_BACKSPACE)
    case 0x2B => Some(KEY_TAB)
    case 0x2C => Some(KEY_SPACE)
    case 0x2D => Some(KEY_MINUS)
    case 0x2E => Some(KEY_EQUAL)
    case 0x2F => Some(KEY_LEFTBRACE)
    case 0x30 => Some(KEY_RIGHTBRACE)
    case 0x31 => Some(KEY_BACKSLASH)
    case 0x32 => Some(KEY_BACKSLASH)
    case 0x33 => Some(KEY_SEMICOLON)
    case 0x34 => Some(KEY_APOSTROPHE)
    case 0x35 => Some(KEY_GRAVE)
    case 0x36 => Some(KEY_COMMA)
    case 0x37 => Some(KEY_DOT)
    case 0x38 => Some(KEY_SLASH)
    case 0x39 => Some(KEY_CAPSLOCK)
    case _ => None
  }

  /** Usages 0x3A to 0x73: function, system, arrow and keypad keys. */
  function ControlKey(usage: int): Option<Key> {
    match usage
    case 0x3A => Some(KEY_F1)
    case 0x3B => Some(KEY_F2)
    case 0x3C => Some(KEY_F3)
    case 0x3D => Some(KEY_F4)
    case 0x3E => Some(KEY_F5)
    case 0x3F => Some(KEY_F6)
    case 0x40 => Some(KEY_F7)
    case 0x41 => Some(KEY_F8)
    case 0x42 => Some(KEY_F9)
    case 0x43 => Some(KEY_F10)
    case 0x44 => Some(KEY_F11)
    case 0x45 => Some(KEY_F12)
    case 0x46 => Some(KEY_SYSRQ)
    case 0x47 => Some(KEY_SCROLLLOCK)
    case 0x48 => Some(KEY_PAUSE)
    case 0x49 => Some(KEY_INSERT)
    case 0x4A => Some(KEY_HOME)
    case 0x4B => Some(KEY_PAGEUP)
    case 0x4C => Some(KEY_DELETE)
    case 0x4D => Some(KEY_END)
    case 0x4E => Some(KEY_PAGEDOWN)
    case 0x4F => Some(KEY_RIGHT)
    case 0x50 => Some(KEY_LEFT)
    case 0x51 => Some(KEY_DOWN)
    case 0x52 => Some(KEY_UP)
    case 0x53 => Some(KEY_NUMLOCK)
    case 0x54 => Some(KEY_KPSLASH)
    case 0x55 => Some(KEY_KPASTERISK)
    case 0x56 => Some(KEY_KPMINUS)
    case 0x57 => Some(KEY_KPPLUS)
    case 0x58 => Some(KEY_KPENTER)
    case 0x59 => Some(KEY_KP1)
    case 0x5A => Some(KEY_KP2)
    case 0x5B => Some(KEY_KP3)
    case 0x5C => Some(KEY_KP4)
    case 0x5D => Some(KEY_KP5)
    case 0x5E => Some(KEY_KP6)
    case 0x5F => Some(KEY_KP7)
    case 0x60 => Some(KEY_KP8)
    case 0x61 => Some(KEY_KP9)
    case 0x62 => Some(KEY_KP0)
    case 0x63 => Some(KEY_KPDOT)
    case 0x64 => Some(KEY_102ND)
    case 0x65 => Some(KEY_COMPOSE)
    case 0x66 => Some(KEY_POWER)
    case 0x67 => Some(KEY_KPEQUAL)
    case 0x68 => Some(KEY_F13)
    case 0x69 => Some(KEY_F14)
    case 0x6A => Some(KEY_F15)
    case 0x6B => Some(KEY_F16)
    case 0x6C => Some(KEY_F17)
    case 0x6D => Some(KEY_F18)
    case 0x6E => Some(KEY_F19)
    case 0x6F => Some(KEY_F20)
    case 0x70 => Some(KEY_F21)
    case 0x71 => Some(KEY_F22)
    case 0x72 => Some(KEY_F23)
    case 0x73 => Some(KEY_F24)
    case _ => None
  }

  /** Usages 0x87 to 0x9C: international keys and keypad extensions. */
  function InternationalKey(usage: int): Option<Key> {
    match usage
    case 0x87 => Some(KEY_RO)
    case 0x88 => Some(KEY_KATAKANAHIRAGANA)
    case 0x89 => Some(KEY_YEN)
    case 0x8A => Some(KEY_HENKAN)
    case 0x8B => Some(KEY_MUHENKAN)
    case 0x8C => Some(KEY_KPJPCOMMA)
    case 0x8D => Some(KEY_KPENTER)
    case 0x8E => Some(KEY_RIGHTCTRL)
    case 0x8F => Some(KEY_KPSLASH)
    case 0x90 => Some(KEY_SYSRQ)
    case 0x91 => Some(KEY_RIGHTALT)
    case 0x92 => Some(KEY_LINEFEED)
    case 0x93 => Some(KEY_HOME)
    case 0x94 => Some(KEY_UP)
    case 0x95 => Some(KEY_PAGEUP)
    case 0x96 => Some(KEY_LEFT)
    case 0x97 => Some(KEY_RIGHT)
    case 0x98 => Some(KEY_END)
    case 0x99 => Some(KEY_DOWN)
    case 0x9A => Some(KEY_PAGEDOWN)
    case 0x9B => Some(KEY_INSERT)
    case 0x9C => Some(KEY_DELETE)
    case _ => None
  }

  /** Usages 0xE0 to 0xE7: the modifiers, again. */
  function ModifierKey(usage: int): Option<Key> {
    match usage
    case 0xE0 => Some(KEY_LEFTCTRL)
    case 0xE1 => Some(KEY_LEFTSHIFT)
    case 0xE2 => Some(KEY_LEFTALT)
    case 0xE3 => Some(KEY_LEFTMETA)
    case 0xE4 => Some(KEY_RIGHTCTRL)
    case 0xE5 => Some(KEY_RIGHTSHIFT)
    case 0xE6 => Some(KEY_RIGHTALT)
    case 0xE7 => Some(KEY_RIGHTMETA)
    case _ => None
  }

  predicate IsModifier(key: Key) {
    match key
    case KEY_LEFTCTRL | KEY_LEFTSHIFT | KEY_LEFTALT | KEY_LEFTMETA => true
    case KEY_RIGHTCTRL | KEY_RIGHTSHIFT | KEY_RIGHTALT | KEY_RIGHTMETA => true
    case _ => false
  }

  /** The usages whose key is a modifier. */
  predicate IsModifierUsage(usage: int) {
    usage == 0x8E || usage == 0x91 || 0xE0 <= usage <= 0xE7
  }

  lemma TypingIsNoModifier(usage: int)
    ensures TypingKey(usage).Some? ==> !IsModifier(TypingKey(usage).value) && TypingKey(usage).value != KEY_FN
  {
  }

  lemma ControlIsNoModifier(usage: int)
    ensures ControlKey(usage).Some? ==> !IsModifier(ControlKey(usage).value) && ControlKey(usage).value != KEY_FN
  {
  }

  lemma InternationalModifiers(usage: int)
    ensures InternationalKey(usage).Some? ==>
              && (IsModifier(InternationalKey(usage).value) <==> usage == 0x8E || usage == 0x91)
              && InternationalKey(usage).value != KEY_FN
  {
  }

  lemma ModifiersAreModifiers(usage: int)
    ensures ModifierKey(usage).Some? <==> 0xE0 <= usage <= 0xE7
    ensures ModifierKey(usage).Some? ==> IsModifier(ModifierKey(usage).value) && ModifierKey(usage).value != KEY_FN
  {
  }

  lemma ModifierUsages(usage: int)
    ensures HidToKey(usage).Some? ==>
              && (IsModifier(HidToKey(usage).value) <==> IsModifierUsage(usage))
              && HidToKey(usage).value != KEY_FN
  {
    TypingIsNoModifier(usage);
    ControlIsNoModifier(usage);
    InternationalModifiers(usage);
    ModifiersAreModifiers(usage);
    hide TypingKey, ControlKey, InternationalKey, ModifierKey, IsModifier;
  }

  lemma ModBitsAreModifiers(bit: nat)
    requires bit < 8
    ensures IsModifier(MOD_BITS[bit]) && MOD_BITS[bit] != KEY_FN
  {
  }

  // ---------------------------------------------------------------------------
  // The order of the usages
  // ---------------------------------------------------------------------------

  /** The letter or digit on a key. */
  function Letter(key: Key): Option<char> {
    match key
    case KEY_A => Some('A') case KEY_B => Some('B') case KEY_C => Some('C') case KEY_D => Some('D')
    case KEY_E => Some('E') case KEY_F => Some('F') case KEY_G => Some('G') case KEY_H => Some('H')
    case KEY_I => Some('I') case KEY_J => Some('J') case KEY_K => Some('K') case KEY_L => Some('L')
    case KEY_M => Some('M') case KEY_N => Some('N') case KEY_O => Some('O') case KEY_P => Some('P')
    case KEY_Q => Some('Q') case KEY_R => Some('R') case KEY_S => Some('S') case KEY_T => Some('T')
    case KEY_U => Some('U') case KEY_V => Some('V') case KEY_W => Some('W') case KEY_X => Some('X')
    case KEY_Y => Some('Y') case KEY_Z => Some('Z')
    case KEY_1 => Some('1') case KEY_2 => Some('2') case KEY_3 => Some('3') case KEY_4 => Some('4')
    case KEY_5 => Some('5') case KEY_6 => Some('6') case KEY_7 => Some('7') case KEY_8 => Some('8')
    case KEY_9 => Some('9') case KEY_0 => Some('0')
    case _ => None
  }

  /** The number of a function key up to F12. */
  function FunctionNumber(key: Key): nat {
    match key
    case KEY_F1 => 1 case KEY_F2 => 2 case KEY_F3 => 3 case KEY_F4 => 4 case KEY_F5 => 5 case KEY_F6 => 6
    case KEY_F7 => 7 case KEY_F8 => 8 case KEY_F9 => 9 case KEY_F10 => 10 case KEY_F11 => 11 case KEY_F12 => 12
    case _ => 0
  }

  /** The digit on a keypad key. */
  function KeypadDigit(key: Key): Option<nat> {
    match key
    case KEY_KP0 => Some(0) case KEY_KP1 => Some(1) case KEY_KP2 => Some(2) case KEY_KP3 => Some(3)
    case KEY_KP4 => Some(4) case KEY_KP5 => Some(5) case KEY_KP6 => Some(6) case KEY_KP7 => Some(7)
    case KEY_KP8 => Some(8) case KEY_KP9 => Some(9)
    case _ => None
  }

  /** Letters follow the alphabet from usage 4 on. */
  lemma LettersInOrder(usage: int)
    ensures 0x04 <= usage <= 0x1D ==>
              TypingKey(usage).Some? && Letter(TypingKey(usage).value) == Some('A' + (usage - 4) as char)
  {
  }

  /** The digits 1 to 9 follow, and then 0. */
  lemma DigitsInOrder(usage: int)
    ensures 0x1E <= usage <= 0x26 ==>
              TypingKey(usage).Some? && Letter(TypingKey(usage).value) == Some('1' + (usage - 0x1E) as char)
    ensures TypingKey(0x27) == Some(KEY_0)
  {
  }

  /** F1 to F12 have consecutive usages. */
  lemma FunctionKeysInOrder(usage: int)
    ensures 0x3A <= usage <= 0x45 ==>
              ControlKey(usage).Some? && FunctionNumber(ControlKey(usage).value) == usage - 0x39
  {
  }

  /** The keypad's digits 1 to 9 follow each other, and then comes 0. */
  lemma KeypadInOrder(usage: int)
    ensures 0x59 <= usage <= 0x61 ==>
              ControlKey(usage).Some? && KeypadDigit(ControlKey(usage).value) == Some(usage - 0x58)
    ensures ControlKey(0x62) == Some(KEY_KP0)
  {
  }
}
