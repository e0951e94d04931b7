/** `keyboard_press_callback` and `keyboard_release_callback`, the copy
    shared verbatim by 13_keyboardevent.cpp, 17_specularlight.cpp and
    19_assimpmodel.cpp.

    The programs keep `bool move_keys[4]`: flag 0 is held while 'w' is
    down, 1 for 's', 2 for 'a' and 3 for 'd'. Pressing a movement key sets
    its flag, releasing it clears the flag, Esc (27) ends the program on
    either event, and every other key is ignored. */
module Keys {

  /** The `unsigned char key` GLUT passes to the callbacks. */
  type KeyCode = c: char | c as int < 256 witness 'w'

  /** The Esc key, whose code is 27. */
  const Esc: KeyCode := 27 as char

  /** The four movement flags, `move_keys[0..3]`. */
  type MoveKeys = s: seq<bool> | |s| == 4 witness [false, false, false, false]

  /** All four flags clear, as the programs start. */
  const NoKeys: MoveKeys := [false, false, false, false]

  /** The result of a callback: the program exits, or goes on with these flags. */
  datatype Outcome = Exit | Continue(keys: MoveKeys)

  /** The flag a key drives: 'w', 's', 'a', 'd' drive flags 0 to 3; other keys none. */
  function FlagOf(key: KeyCode): (i: int)
    ensures -1 <= i < 4
    ensures i == -1 <==> key !in {'w', 's', 'a', 'd'}
    ensures 0 <= i ==> "wsad"[i] == key
  {
    match key
    case 'w' => 0
    case 's' => 1
    case 'a' => 2
    case 'd' => 3
    case _ => -1
  }

  /** The shared `switch`: Esc exits, a movement key's flag becomes `down`,
      any other key changes nothing. */
  function KeyEvent(keys: MoveKeys, key: KeyCode, down: bool): (o: Outcome)
    ensures o.Exit? <==> key == Esc
    ensures o.Continue? ==> forall j :: 0 <= j < 4 ==>
      o.keys[j] == (if j == FlagOf(key) then down else keys[j])
  {
    if key == Esc then Exit
    else
      var i := FlagOf(key);
      if i == -1 then Continue(keys) else Continue(keys[i := down])
  }

  /** `keyboard_press_callback(key, x, y)`; the pointer position is unused. */
  function Press(keys: MoveKeys, key: KeyCode): (o: Outcome)
    ensures o.Exit? <==> key == Esc
    ensures o.Continue? && FlagOf(key) != -1 ==> o.keys[FlagOf(key)]
    ensures o.Continue? ==> forall j :: 0 <= j < 4 && j != FlagOf(key) ==> o.keys[j] == keys[j]
  {
    KeyEvent(keys, key, true)
  }

  /** `keyboard_release_callback(key, x, y)`; the pointer position is unused. */
  function Release(keys: MoveKeys, key: KeyCode): (o: Outcome)
    ensures o.Exit? <==> key == Esc
    ensures o.Continue? && FlagOf(key) != -1 ==> !o.keys[FlagOf(key)]
    ensures o.Continue? ==> forall j :: 0 <= j < 4 && j != FlagOf(key) ==> o.keys[j] == keys[j]
  {
    KeyEvent(keys, key, false)
  }

  /** Pressing 'w', 's', 'a' or 'd' sets exactly flag 0, 1, 2 or 3, and
      releasing it clears exactly that flag. */
  lemma MovementKeys(keys: MoveKeys)
    ensures Press(keys, 'w') == Continue(keys[0 := true]) && Release(keys, 'w') == Continue(keys[0 := false])
    ensures Press(keys, 's') == Continue(keys[1 := true]) && Release(keys, 's') == Continue(keys[1 := false])
    ensures Press(keys, 'a') == Continue(keys[2 := true]) && Release(keys, 'a') == Continue(keys[2 := false])
    ensures Press(keys, 'd') == Continue(keys[3 := true]) && Release(keys, 'd') == Continue(keys[3 := false])
  {
  }

  /** The net step along one direction when the key for `+` and the key
      for `-` are held as given: `speed`, `-speed`, or 0 when both or
      neither are held. */
  function NetStep(plus: bool, minus: bool, speed: real): (d: real)
    ensures plus == minus ==> d == 0.0
    ensures plus && !minus ==> d == speed
    ensures minus && !plus ==> d == -speed
  {
    (if plus then speed else 0.0) - (if minus then speed else 0.0)
  }

  /** Any key other than Esc and the four movement keys leaves every flag as it was. */
  lemma OtherKeysIgnored(keys: MoveKeys, key: KeyCode)
    requires key != Esc && key !in {'w', 's', 'a', 'd'}
    ensures Press(keys, key) == Continue(keys)
    ensures Release(keys, key) == Continue(keys)
  {
  }

  /** Releasing a key undoes pressing it, when its flag was clear before;
      pressing undoes releasing when the flag was set. */
  lemma ReleaseUndoesPress(keys: MoveKeys, key: KeyCode)
    requires key != Esc
    ensures FlagOf(key) == -1 || !keys[FlagOf(key)] ==> Release(Press(keys, key).keys, key) == Continue(keys)
    ensures FlagOf(key) == -1 || keys[FlagOf(key)] ==> Press(Release(keys, key).keys, key) == Continue(keys)
  {
    var i := FlagOf(key);
    if i != -1 {
      assert keys[i := true][i := false] == keys[i := false];
      assert keys[i := false][i := true] == keys[i := true];
    }
  }

  /** Pressing a key twice is the same as pressing it once (auto-repeat), and so is releasing. */
  lemma EventsIdempotent(keys: MoveKeys, key: KeyCode)
    requires key != Esc
    ensures Press(Press(keys, key).keys, key) == Press(keys, key)
    ensures Release(Release(keys, key).keys, key) == Release(keys, key)
  {
  }

  /** Events on two different keys commute. */
  lemma DistinctKeysCommute(keys: MoveKeys, k1: KeyCode, k2: KeyCode, d1: bool, d2: bool)
    requires k1 != Esc && k2 != Esc && k1 != k2
    ensures KeyEvent(KeyEvent(keys, k1, d1).keys, k2, d2) == KeyEvent(KeyEvent(keys, k2, d2).keys, k1, d1)
  {
    var o1 := KeyEvent(KeyEvent(keys, k1, d1).keys, k2, d2);
    var o2 := KeyEvent(KeyEvent(keys, k2, d2).keys, k1, d1);
    assert forall j :: 0 <= j < 4 ==> o1.keys[j] == o2.keys[j];
  }
}
