/**
 * The physical-to-virtual key table: sixteen keyboard keys laid out as the
 * CHIP-8 hexadecimal keypad
 *
 *     1 2 3 4        1 2 3 C
 *     Q W E R   ->   4 5 6 D
 *     A S D F        7 8 9 E
 *     Z X C V        A 0 B F
 */
module Keypad {
  import opened Bytes

  /** The keyboard keys the front end tells apart; every other key is `Other`. */
  datatype Keycode =
    | Num1 | Num2 | Num3 | Num4
    | Q | W | E | R
    | A | S | D | F
    | Z | X | C | V
    | Space | Escape
    | Other(id: int)

  /** The number of keys on the CHIP-8 keypad, and so of virtual key codes. */
  const KEY_COUNT: int := 0x10

  /**
   * `default_keyboard_mappings`: the fixed table, its sixteen insertions in
   * order. Every value is a keypad code, and neither the step key, the quit
   * key nor any unlisted key is in it.
   */
  function DefaultKeyboardMappings(): (m: map<Keycode, u8>)
    ensures forall k :: k in m ==> m[k] as int < KEY_COUNT
    ensures Space !in m && Escape !in m
    ensures forall id :: Other(id) !in m
  {
    map[X := 0][Num1 := 1][Num2 := 2][Num3 := 3]
      [Q := 4][W := 5][E := 6]
      [A := 7][S := 8][D := 9]
      [Z := 0xA][C := 0xB]
      [Num4 := 0xC][R := 0xD][F := 0xE][V := 0xF]
  }

  /**
   * The key the table assigns to a virtual code: the inverse of the table,
   * so every code 0x0-0xF is produced by some key.
   */
  function KeyForCode(code: u8): (k: Keycode)
    requires code as int < KEY_COUNT
    ensures k in DefaultKeyboardMappings() && DefaultKeyboardMappings()[k] == code
  {
    match code
    case 0 => X
    case 1 => Num1
    case 2 => Num2
    case 3 => Num3
    case 4 => Q
    case 5 => W
    case 6 => E
    case 7 => A
    case 8 => S
    case 9 => D
    case 0xA => Z
    case 0xB => C
    case 0xC => Num4
    case 0xD => R
    case 0xE => F
    case _ => V
  }

  /** `KeyForCode` extended to every byte, so that it can be passed as a value. */
  function KeyOrOther(code: u8): Keycode {
    if code as int < KEY_COUNT then KeyForCode(code) else Other(code as int)
  }

  /** `f` and `m` are inverse bijections between the keypad codes and the keys of `m`. */
  ghost predicate Inverse(f: u8 -> Keycode, m: map<Keycode, u8>) {
    (forall c: u8 :: c as int < KEY_COUNT ==> f(c) in m && m[f(c)] == c) &&
    (forall k :: k in m ==> m[k] as int < KEY_COUNT && f(m[k]) == k)
  }

  /** The keys `f` gives the codes below `n`. */
  ghost function Image(f: u8 -> Keycode, n: u8): set<Keycode>
    decreases n
  {
    if n == 0 then {} else Image(f, n - 1) + {f(n - 1)}
  }

  /** For an inverse pair, the image of the codes below `n` is exactly the keys `m` maps below `n`. */
  lemma {:induction false} ImageExactly(f: u8 -> Keycode, m: map<Keycode, u8>, n: u8)
    requires Inverse(f, m) && n as int <= KEY_COUNT
    ensures forall k :: k in Image(f, n) <==> k in m && m[k] < n
    decreases n
  {
    if n > 0 {
      var p := n - 1;
      ImageExactly(f, m, p);
      assert f(p) in m && m[f(p)] == p;
      forall k | k in m ensures m[k] == p <==> k == f(p) {
        assert f(m[k]) == k;
      }
    }
  }

  /** For an inverse pair, the codes below `n` have `n` distinct keys. */
  lemma {:induction false} ImageSize(f: u8 -> Keycode, m: map<Keycode, u8>, n: u8)
    requires Inverse(f, m) && n as int <= KEY_COUNT
    ensures |Image(f, n)| == n as int
    decreases n
  {
    if n > 0 {
      ImageSize(f, m, n - 1);
      ImageExactly(f, m, n - 1);
      assert f(n - 1) !in Image(f, n - 1);
    }
  }

  /** A map with an inverse over the keypad codes has one entry per code. */
  lemma InverseSize(f: u8 -> Keycode, m: map<Keycode, u8>)
    requires Inverse(f, m)
    ensures |m| == KEY_COUNT
  {
    ImageExactly(f, m, 0x10);
    assert m.Keys == Image(f, 0x10);
    ImageSize(f, m, 0x10);
  }

  /** The table and `KeyForCode` are inverse bijections. */
  lemma TableIsInverse()
    ensures Inverse(KeyOrOther, DefaultKeyboardMappings())
  {
    forall k | k in DefaultKeyboardMappings()
      ensures DefaultKeyboardMappings()[k] as int < KEY_COUNT && KeyOrOther(DefaultKeyboardMappings()[k]) == k
    {
      TableIsInjective(k);
    }
  }

  /** The table has exactly sixteen entries. */
  lemma TableSize()
    ensures |DefaultKeyboardMappings()| == KEY_COUNT
  {
    TableIsInverse();
    InverseSize(KeyOrOther, DefaultKeyboardMappings());
  }

  /** Every code in the table is a keypad code, and `KeyForCode` recovers the key from it. */
  lemma TableIsInjective(k: Keycode)
    requires k in DefaultKeyboardMappings()
    ensures DefaultKeyboardMappings()[k] as int < KEY_COUNT
    ensures KeyForCode(DefaultKeyboardMappings()[k]) == k
  {
  }

  /** Two keys with the same code are the same key. */
  lemma SameCodeSameKey(k1: Keycode, k2: Keycode)
    requires k1 in DefaultKeyboardMappings() && k2 in DefaultKeyboardMappings()
    requires DefaultKeyboardMappings()[k1] == DefaultKeyboardMappings()[k2]
    ensures k1 == k2
  {
    TableIsInjective(k1);
    TableIsInjective(k2);
  }

  /** 'X' is 0x0 and '4' is 0xC; the step and quit keys and unlisted keys are not in the table. */
  lemma TableExamples(id: int)
    ensures DefaultKeyboardMappings()[X] == 0
    ensures DefaultKeyboardMappings()[Num4] == 0xC
    ensures Space !in DefaultKeyboardMappings() && Escape !in DefaultKeyboardMappings()
    ensures Other(id) !in DefaultKeyboardMappings()
  {
  }
}
