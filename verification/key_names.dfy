/** The two columns of key names: which of them tell the keys of the table apart. */
module KeyNames {
  import opened KeyDef

  /** Where in the table an original name stands, read off its letters. */
  function OrigSlot(s: Name): int {
    match |s|
    case 2 =>
      if s[1] == '1' then (if s[0] == 'l' then 12 else 13)
      else if s[1] == '2' then (if s[0] == 'l' then 10 else 11)
      else if s[1] == '3' then (if s[0] == 'l' then 3 else 4)
      else if s[1] == 'p' then 6
      else 1
    case 3 => 48
    case 4 =>
      if s[3] == '0' then 27
      else if s[3] == '1' then 18
      else if s[3] == '2' then 19
      else if s[3] == '3' then 20
      else if s[3] == '4' then 21
      else if s[3] == '5' then 22
      else if s[3] == '6' then 23
      else if s[3] == '7' then 24
      else if s[3] == '8' then 25
      else if s[3] == '9' then 26
      else if s[3] == 'e' then (if s[0] == 't' then 32 else 47)
      else if s[3] == 'n' then 8
      else if s[3] == 'p' then 38
      else if s[3] == 't' then (if s[0] == 'l' then 9 else 34)
      else if s[3] == 'v' then 33
      else 35
    case 5 =>
      if s[1] == 'a' then 39
      else if s[1] == 'i' then 7
      else if s[1] == 'j' then 30
      else if s[1] == 'l' then 29
      else if s[1] == 'n' then (if s[0] == 'e' then 0 else 45)
      else if s[1] == 'o' then 40
      else if s[1] == 'r' then (if s[0] == 'c' then 16 else 49)
      else if s[1] == 't' then 5
      else 44
    case 6 =>
      if s[3] == 'a' then 17
      else if s[3] == 'c' then 15
      else if s[3] == 'e' then 2
      else if s[3] == 'l' then 50
      else 28
    case 7 =>
      if s[1] == 'c' then (if s[4] == 'r' then 36 else 37)
      else if s[1] == 'i' then 46
      else if s[1] == 'o' then 31
      else (if s[4] == 'r' then 41 else 42)
    case 8 =>
      if s[0] == 's' then 43
      else 14
    case _ => UNDEF
  }

  /** Where in the table an LIRC name stands; KEY_CLEAR stands there twice, first at 16. */
  function LircSlot(s: Name): int {
    match |s|
    case 5 =>
      if s[4] == '0' then 27
      else if s[4] == '1' then 18
      else if s[4] == '2' then 19
      else if s[4] == '3' then 20
      else if s[4] == '4' then 21
      else if s[4] == '5' then 22
      else if s[4] == '6' then 23
      else if s[4] == '7' then 24
      else if s[4] == '8' then 25
      else if s[4] == '9' then 26
      else if s[4] == 'A' then 12
      else if s[4] == 'B' then 10
      else if s[4] == 'C' then 3
      else if s[4] == 'X' then 13
      else if s[4] == 'Y' then 11
      else 4
    case 6 => 6
    case 7 => 48
    case 8 =>
      if s[4] == 'B' then (if s[5] == 'A' then 15 else 47)
      else if s[4] == 'D' then 8
      else if s[4] == 'I' then 46
      else if s[4] == 'L' then 9
      else if s[4] == 'M' then 31
      else if s[4] == 'N' then 34
      else if s[4] == 'P' then 35
      else if s[4] == 'S' then 38
      else if s[4] == 'T' then 32
      else 17
    case 9 =>
      if s[5] == 'A' then 39
      else if s[5] == 'I' then 7
      else if s[5] == 'L' then 16
      else if s[5] == 'N' then (if s[4] == 'E' then 0 else 45)
      else if s[5] == 'O' then 1
      else if s[5] == 'R' then 49
      else if s[5] == 'T' then 5
      else 44
    case 10 =>
      if s[4] == 'O' then 14
      else if s[4] == 'R' then 36
      else if s[4] == 'S' then 2
      else 50
    case 11 =>
      if s[4] == 'E' then 30
      else 37
    case 12 =>
      if s[4] == 'P' then 33
      else 43
    case 13 => 41
    case 16 =>
      if s[4] == 'C' then 40
      else if s[4] == 'F' then 42
      else 28
    case _ => UNDEF
  }

  /** The two keys that share an LIRC name. */
  const CROSS: KeyIndex := 16
  const CLEAR: KeyIndex := 29

  ghost predicate OrigPlaced(keys: seq<KeyInfo>, base: int) {
    forall i :: 0 <= i < |keys| ==> OrigSlot(keys[i].nameOrig) == base + i
  }

  ghost predicate LircPlaced(keys: seq<KeyInfo>, base: int) {
    forall i :: 0 <= i < |keys| ==> LircSlot(keys[i].nameLirc) == if base + i == CLEAR then CROSS else base + i
  }

  lemma NavigationOrig()
    ensures |NAVIGATION_KEYS| == 9 && OrigPlaced(NAVIGATION_KEYS, 0)
  {
  }

  lemma NavigationLirc()
    ensures |NAVIGATION_KEYS| == 9 && LircPlaced(NAVIGATION_KEYS, 0)
  {
  }

  lemma PadOrig()
    ensures |PAD_KEYS| == 9 && OrigPlaced(PAD_KEYS, 9)
  {
  }

  lemma PadLirc()
    ensures |PAD_KEYS| == 9 && LircPlaced(PAD_KEYS, 9)
  {
  }

  lemma DigitOrig()
    ensures |DIGIT_KEYS| == 10 && OrigPlaced(DIGIT_KEYS, 18)
  {
  }

  lemma DigitLirc()
    ensures |DIGIT_KEYS| == 10 && LircPlaced(DIGIT_KEYS, 18)
  {
  }

  lemma DiscOrig()
    ensures |DISC_KEYS| == 6 && OrigPlaced(DISC_KEYS, 28)
  {
  }

  lemma DiscLirc()
    ensures |DISC_KEYS| == 6 && LircPlaced(DISC_KEYS, 28)
  {
  }

  lemma PlayOrig()
    ensures |PLAY_KEYS| == 7 && OrigPlaced(PLAY_KEYS, 34)
  {
  }

  lemma PlayLirc()
    ensures |PLAY_KEYS| == 7 && LircPlaced(PLAY_KEYS, 34)
  {
  }

  lemma ScreenOrig()
    ensures |SCREEN_KEYS| == 6 && OrigPlaced(SCREEN_KEYS, 41)
  {
  }

  lemma ScreenLirc()
    ensures |SCREEN_KEYS| == 6 && LircPlaced(SCREEN_KEYS, 41)
  {
  }

  lemma ColourOrig()
    ensures |COLOUR_KEYS| == 4 && OrigPlaced(COLOUR_KEYS, 47)
  {
  }

  lemma ColourLirc()
    ensures |COLOUR_KEYS| == 4 && LircPlaced(COLOUR_KEYS, 47)
  {
  }

  lemma OrigNames()
    ensures |KEYS| == NUM_KEYS && OrigPlaced(KEYS, 0)
  {
    hide OrigSlot;
    NavigationOrig();
    PadOrig();
    DigitOrig();
    DiscOrig();
    PlayOrig();
    ScreenOrig();
    ColourOrig();
  }

  lemma LircNames()
    ensures |KEYS| == NUM_KEYS && LircPlaced(KEYS, 0)
  {
    hide LircSlot;
    NavigationLirc();
    PadLirc();
    DigitLirc();
    DiscLirc();
    PlayLirc();
    ScreenLirc();
    ColourLirc();
  }

  /** The original names tell all keys apart; the LIRC names all but one pair. */
  lemma NamesTellKeys(i: KeyIndex, j: KeyIndex)
    ensures KeyAt(i).nameOrig == KeyAt(j).nameOrig <==> i == j
    ensures KeyAt(i).nameLirc == KeyAt(j).nameLirc <==>
              i == j || (i == CROSS && j == CLEAR) || (i == CLEAR && j == CROSS)
  {
    hide OrigSlot, LircSlot;
    OrigNames();
    LircNames();
    ClearTwice();
  }

  lemma ClearTwice()
    ensures KeyAt(CROSS).nameLirc == KeyAt(CLEAR).nameLirc == "KEY_CLEAR"
    ensures KeyAt(CROSS).eventCode == KeyAt(CLEAR).eventCode
  {
    hide OrigSlot, LircSlot;
    NavigationOrig();
    PadOrig();
    DigitOrig();
    assert KEYS[CROSS] == PAD_KEYS[7];
    assert KEYS[CLEAR] == DISC_KEYS[1];
  }
}
