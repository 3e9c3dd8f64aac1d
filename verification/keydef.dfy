/** The keys of the remote: src/keydef.h. The 24-bit mask column is only ever logged and is left out. */
module KeyDef {
  /** A name that a line can carry: not empty, at most 16 characters, no space and no line end. */
  predicate NameOk(name: string) {
    0 < |name| <= 16 && forall i :: 0 <= i < |name| ==> name[i] != ' ' && name[i] != '\n'
  }

  type Name = s: string | NameOk(s) witness "a"

  /** A key code: one byte, other than the release code. */
  type Code = c: nat | c < 0xFF

  datatype KeyInfo = KeyInfo(nameOrig: Name, nameLirc: Name, eventCode: nat, code: Code)

  /** The code that stands for a release. */
  const KEYUP := 0xFF

  /** No key. */
  const UNDEF := -1

  const NUM_KEYS := 51

  const NAVIGATION_KEYS: seq<KeyInfo> := [
    KeyInfo("enter", "KEY_ENTER", 28, 0x0b),
    KeyInfo("ps", "KEY_POWER", 116, 0x43),
    KeyInfo("select", "KEY_SELECT", 0x161, 0x50),
    KeyInfo("l3", "BTN_C", 0x132, 0x51),
    KeyInfo("r3", "BTN_Z", 0x135, 0x52),
    KeyInfo("start", "BTN_START", 0x13b, 0x53),
    KeyInfo("up", "KEY_UP", 103, 0x54),
    KeyInfo("right", "KEY_RIGHT", 106, 0x55),
    KeyInfo("down", "KEY_DOWN", 108, 0x56)
  ]

  const PAD_KEYS: seq<KeyInfo> := [
    KeyInfo("left", "KEY_LEFT", 105, 0x57),
    KeyInfo("l2", "BTN_B", 0x131, 0x58),
    KeyInfo("r2", "BTN_Y", 0x134, 0x59),
    KeyInfo("l1", "BTN_A", 0x130, 0x5a),
    KeyInfo("r1", "BTN_X", 0x133, 0x5b),
    KeyInfo("triangle", "KEY_OPTION", 0x165, 0x5c),
    KeyInfo("circle", "KEY_BACK", 158, 0x5d),
    KeyInfo("cross", "KEY_CLEAR", 0x163, 0x5e),
    KeyInfo("square", "KEY_ZOOM", 0x174, 0x5f)
  ]

  const DIGIT_KEYS: seq<KeyInfo> := [
    KeyInfo("num1", "KEY_1", 2, 0x00),
    KeyInfo("num2", "KEY_2", 3, 0x01),
    KeyInfo("num3", "KEY_3", 4, 0x02),
    KeyInfo("num4", "KEY_4", 5, 0x03),
    KeyInfo("num5", "KEY_5", 6, 0x04),
    KeyInfo("num6", "KEY_6", 7, 0x05),
    KeyInfo("num7", "KEY_7", 8, 0x06),
    KeyInfo("num8", "KEY_8", 9, 0x07),
    KeyInfo("num9", "KEY_9", 10, 0x08),
    KeyInfo("num0", "KEY_0", 11, 0x09)
  ]

  const DISC_KEYS: seq<KeyInfo> := [
    KeyInfo("return", "KEY_MEDIA_REPEAT", 0x1b7, 0x0e),
    KeyInfo("clear", "KEY_CLEAR", 0x163, 0x0f),
    KeyInfo("eject", "KEY_EJECTCD", 161, 0x16),
    KeyInfo("topmenu", "KEY_MENU", 139, 0x1a),
    KeyInfo("time", "KEY_TIME", 0x167, 0x28),
    KeyInfo("prev", "KEY_PREVIOUS", 0x19c, 0x30)
  ]

  const PLAY_KEYS: seq<KeyInfo> := [
    KeyInfo("next", "KEY_NEXT", 0x197, 0x31),
    KeyInfo("play", "KEY_PLAY", 207, 0x32),
    KeyInfo("scanrev", "KEY_REWIND", 168, 0x33),
    KeyInfo("scanfwd", "KEY_FORWARD", 159, 0x34),
    KeyInfo("stop", "KEY_STOP", 128, 0x38),
    KeyInfo("pause", "KEY_PAUSE", 119, 0x39),
    KeyInfo("popup", "KEY_CONTEXT_MENU", 0x1b6, 0x40)
  ]

  const SCREEN_KEYS: seq<KeyInfo> := [
    KeyInfo("steprev", "KEY_FRAMEBACK", 0x1b4, 0x60),
    KeyInfo("stepfwd", "KEY_FRAMEFORWARD", 0x1b5, 0x61),
    KeyInfo("subtitle", "KEY_SUBTITLE", 0x172, 0x63),
    KeyInfo("audio", "KEY_AUDIO", 0x188, 0x64),
    KeyInfo("angle", "KEY_ANGLE", 0x173, 0x65),
    KeyInfo("display", "KEY_INFO", 0x166, 0x70)
  ]

  const COLOUR_KEYS: seq<KeyInfo> := [
    KeyInfo("blue", "KEY_BLUE", 0x191, 0x80),
    KeyInfo("red", "KEY_RED", 0x18e, 0x81),
    KeyInfo("green", "KEY_GREEN", 0x18f, 0x82),
    KeyInfo("yellow", "KEY_YELLOW", 0x190, 0x83)
  ]

  const KEYS: seq<KeyInfo> :=
    NAVIGATION_KEYS + PAD_KEYS + DIGIT_KEYS
    + DISC_KEYS + PLAY_KEYS + SCREEN_KEYS + COLOUR_KEYS

  /** Where in the table a code stands, read off the code alone. */
  function Slot(code: nat): int {
    if code <= 0x09 then code + 18
    else if code == 0x0b then 0
    else if code <= 0x0f then code - 0x0e + 28
    else if code <= 0x1a then (if code == 0x16 then 30 else 31)
    else if code <= 0x30 then (if code == 0x28 then 32 else 33)
    else if code <= 0x34 then code - 0x31 + 34
    else if code <= 0x40 then (if code == 0x40 then 40 else code - 0x38 + 38)
    else if code == 0x43 then 1
    else if code <= 0x5f then code - 0x50 + 2
    else if code <= 0x61 then code - 0x60 + 41
    else if code <= 0x65 then code - 0x63 + 43
    else if code == 0x70 then 46
    else code - 0x80 + 47
  }

  ghost predicate Placed(keys: seq<KeyInfo>, base: int) {
    forall i :: 0 <= i < |keys| ==> Slot(keys[i].code) == base + i
  }

  lemma KeypadIsPlaced()
    ensures |NAVIGATION_KEYS| == 9 && Placed(NAVIGATION_KEYS, 0)
    ensures |PAD_KEYS| == 9 && Placed(PAD_KEYS, 9)
    ensures |DIGIT_KEYS| == 10 && Placed(DIGIT_KEYS, 18)
  {
  }

  lemma ControlsArePlaced()
    ensures |DISC_KEYS| == 6 && Placed(DISC_KEYS, 28)
    ensures |PLAY_KEYS| == 7 && Placed(PLAY_KEYS, 34)
    ensures |SCREEN_KEYS| == 6 && Placed(SCREEN_KEYS, 41)
    ensures |COLOUR_KEYS| == 4 && Placed(COLOUR_KEYS, 47)
  {
  }

  lemma TableIsPlaced()
    ensures |KEYS| == NUM_KEYS && Placed(KEYS, 0)
  {
    hide Slot;
    KeypadIsPlaced();
    ControlsArePlaced();
  }

  /** The codes of different keys differ, so a code names at most one key. */
  lemma CodesAreDistinct()
    ensures |KEYS| == NUM_KEYS
    ensures forall i, j :: 0 <= i < NUM_KEYS && 0 <= j < NUM_KEYS && KEYS[i].code == KEYS[j].code ==> i == j
  {
    TableIsPlaced();
    forall i, j | 0 <= i < NUM_KEYS && 0 <= j < NUM_KEYS && KEYS[i].code == KEYS[j].code
      ensures i == j
    {
      assert Slot(KEYS[i].code) == i && Slot(KEYS[j].code) == j;
    }
  }

  type KeyIndex = i: nat | i < NUM_KEYS

  function KeyAt(i: KeyIndex): KeyInfo {
    TableIsPlaced();
    KEYS[i]
  }

  /** The table index of a code, or UNDEF. */
  function CodeIndex(code: nat): (num: int)
    ensures num == UNDEF || 0 <= num < NUM_KEYS
  {
    FirstWith(code, 0)
  }

  function FirstWith(code: nat, from: nat): (num: int)
    requires from <= NUM_KEYS
    ensures num == UNDEF || from <= num < NUM_KEYS
    decreases NUM_KEYS - from
  {
    if from == NUM_KEYS then UNDEF
    else if KeyAt(from).code == code then from
    else FirstWith(code, from + 1)
  }

  lemma {:induction false} FirstWithFinds(code: nat, from: nat)
    requires from <= NUM_KEYS
    ensures var num := FirstWith(code, from);
            && (num != UNDEF ==> KeyAt(num).code == code)
            && forall i: KeyIndex :: from <= i && (num == UNDEF || i < num) ==> KeyAt(i).code != code
    decreases NUM_KEYS - from
  {
    hide KeyAt;
    if from < NUM_KEYS && KeyAt(from).code != code {
      FirstWithFinds(code, from + 1);
    }
  }

  /** A code has an index exactly when some key has the code, and then it is that key. */
  lemma CodeIndexFinds(code: nat)
    ensures CodeIndex(code) == UNDEF <==> forall i: KeyIndex :: KeyAt(i).code != code
    ensures CodeIndex(code) != UNDEF ==> KeyAt(CodeIndex(code)).code == code
  {
    FirstWithFinds(code, 0);
  }

  /** A code in the table finds its own key, and no other. */
  lemma CodeFindsItsKey(i: KeyIndex)
    ensures CodeIndex(KeyAt(i).code) == i
  {
    CodeIndexFinds(KeyAt(i).code);
    CodesAreDistinct();
  }
}
