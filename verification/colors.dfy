/** Named colours: the `RGB8` constants, the table of their upper-case
    names, and the case-insensitive lookup over it. */
module Colors {
  import opened Bytes
  import opened Wrappers
  import opened Strings

  datatype Rgb = Rgb(r: byte, g: byte, b: byte)

  const MAROON: Rgb := Rgb(128, 0, 0)
  const DARK_RED: Rgb := Rgb(139, 0, 0)
  const BROWN: Rgb := Rgb(165, 42, 42)
  const FIREBRICK: Rgb := Rgb(178, 34, 34)
  const CRIMSON: Rgb := Rgb(220, 20, 60)
  const RED: Rgb := Rgb(255, 0, 0)
  const TOMATO: Rgb := Rgb(255, 99, 71)
  const CORAL: Rgb := Rgb(255, 127, 80)
  const INDIAN_RED: Rgb := Rgb(205, 92, 92)
  const LIGHT_CORAL: Rgb := Rgb(240, 128, 128)
  const DARK_SALMON: Rgb := Rgb(233, 150, 122)
  const SALMON: Rgb := Rgb(250, 128, 114)
  const LIGHT_SALMON: Rgb := Rgb(255, 160, 122)
  const ORANGE_RED: Rgb := Rgb(255, 69, 0)
  const DARK_ORANGE: Rgb := Rgb(255, 140, 0)
  const ORANGE: Rgb := Rgb(255, 165, 0)
  const GOLD: Rgb := Rgb(255, 215, 0)
  const DARK_GOLDEN_ROD: Rgb := Rgb(184, 134, 11)
  const GOLDEN_ROD: Rgb := Rgb(218, 165, 32)
  const PALE_GOLDEN_ROD: Rgb := Rgb(238, 232, 170)
  const DARK_KHAKI: Rgb := Rgb(189, 183, 107)
  const KHAKI: Rgb := Rgb(240, 230, 140)
  const OLIVE: Rgb := Rgb(128, 128, 0)
  const YELLOW: Rgb := Rgb(255, 255, 0)
  const YELLOW_GREEN: Rgb := Rgb(154, 205, 50)
  const DARK_OLIVE_GREEN: Rgb := Rgb(85, 107, 47)
  const OLIVE_DRAB: Rgb := Rgb(107, 142, 35)
  const LAWN_GREEN: Rgb := Rgb(124, 252, 0)
  const CHARTREUSE: Rgb := Rgb(127, 255, 0)
  const GREEN_YELLOW: Rgb := Rgb(173, 255, 47)
  const DARK_GREEN: Rgb := Rgb(0, 100, 0)
  const GREEN: Rgb := Rgb(0, 128, 0)
  const FOREST_GREEN: Rgb := Rgb(34, 139, 34)
  const LIME: Rgb := Rgb(0, 255, 0)
  const LIME_GREEN: Rgb := Rgb(50, 205, 50)
  const LIGHT_GREEN: Rgb := Rgb(144, 238, 144)
  const PALE_GREEN: Rgb := Rgb(152, 251, 152)
  const DARK_SEA_GREEN: Rgb := Rgb(143, 188, 143)
  const MEDIUM_SPRING_GREEN: Rgb := Rgb(0, 250, 154)
  const SPRING_GREEN: Rgb := Rgb(0, 255, 127)
  const SEA_GREEN: Rgb := Rgb(46, 139, 87)
  const MEDIUM_AQUA_MARINE: Rgb := Rgb(102, 205, 170)
  const MEDIUM_SEA_GREEN: Rgb := Rgb(60, 179, 113)
  const LIGHT_SEA_GREEN: Rgb := Rgb(32, 178, 170)
  const DARK_SLATE_GRAY: Rgb := Rgb(47, 79, 79)
  const TEAL: Rgb := Rgb(0, 128, 128)
  const DARK_CYAN: Rgb := Rgb(0, 139, 139)
  const AQUA: Rgb := Rgb(0, 255, 255)
  const CYAN: Rgb := Rgb(0, 255, 255)
  const LIGHT_CYAN: Rgb := Rgb(224, 255, 255)
  const DARK_TURQUOISE: Rgb := Rgb(0, 206, 209)
  const TURQUOISE: Rgb := Rgb(64, 224, 208)
  const MEDIUM_TURQUOISE: Rgb := Rgb(72, 209, 204)
  const PALE_TURQUOISE: Rgb := Rgb(175, 238, 238)
  const AQUA_MARINE: Rgb := Rgb(127, 255, 212)
  const POWDER_BLUE: Rgb := Rgb(176, 224, 230)
  const CADET_BLUE: Rgb := Rgb(95, 158, 160)
  const STEEL_BLUE: Rgb := Rgb(70, 130, 180)
  const CORN_FLOWER_BLUE: Rgb := Rgb(100, 149, 237)
  const DEEP_SKY_BLUE: Rgb := Rgb(0, 191, 255)
  const DODGER_BLUE: Rgb := Rgb(30, 144, 255)
  const LIGHT_BLUE: Rgb := Rgb(173, 216, 230)
  const SKY_BLUE: Rgb := Rgb(135, 206, 235)
  const LIGHT_SKY_BLUE: Rgb := Rgb(135, 206, 250)
  const MIDNIGHT_BLUE: Rgb := Rgb(25, 25, 112)
  const NAVY: Rgb := Rgb(0, 0, 128)
  const DARK_BLUE: Rgb := Rgb(0, 0, 139)
  const MEDIUM_BLUE: Rgb := Rgb(0, 0, 205)
  const BLUE: Rgb := Rgb(0, 0, 255)
  const ROYAL_BLUE: Rgb := Rgb(65, 105, 225)
  const BLUE_VIOLET: Rgb := Rgb(138, 43, 226)
  const INDIGO: Rgb := Rgb(75, 0, 130)
  const DARK_SLATE_BLUE: Rgb := Rgb(72, 61, 139)
  const SLATE_BLUE: Rgb := Rgb(106, 90, 205)
  const MEDIUM_SLATE_BLUE: Rgb := Rgb(123, 104, 238)
  const MEDIUM_PURPLE: Rgb := Rgb(147, 112, 219)
  const DARK_MAGENTA: Rgb := Rgb(139, 0, 139)
  const DARK_VIOLET: Rgb := Rgb(148, 0, 211)
  const DARK_ORCHID: Rgb := Rgb(153, 50, 204)
  const MEDIUM_ORCHID: Rgb := Rgb(186, 85, 211)
  const PURPLE: Rgb := Rgb(128, 0, 128)
  const THISTLE: Rgb := Rgb(216, 191, 216)
  const PLUM: Rgb := Rgb(221, 160, 221)
  const VIOLET: Rgb := Rgb(238, 130, 238)
  const MAGENTA: Rgb := Rgb(255, 0, 255)
  const ORCHID: Rgb := Rgb(218, 112, 214)
  const MEDIUM_VIOLET_RED: Rgb := Rgb(199, 21, 133)
  const PALE_VIOLET_RED: Rgb := Rgb(219, 112, 147)
  const DEEP_PINK: Rgb := Rgb(255, 20, 147)
  const HOT_PINK: Rgb := Rgb(255, 105, 180)
  const LIGHT_PINK: Rgb := Rgb(255, 182, 193)
  const PINK: Rgb := Rgb(255, 192, 203)
  const ANTIQUE_WHITE: Rgb := Rgb(250, 235, 215)
  const BEIGE: Rgb := Rgb(245, 245, 220)
  const BISQUE: Rgb := Rgb(255, 228, 196)
  const BLANCHED_ALMOND: Rgb := Rgb(255, 235, 205)
  const WHEAT: Rgb := Rgb(245, 222, 179)
  const CORN_SILK: Rgb := Rgb(255, 248, 220)
  const LEMON_CHIFFON: Rgb := Rgb(255, 250, 205)
  const LIGHT_GOLDEN_ROD_YELLOW: Rgb := Rgb(250, 250, 210)
  const LIGHT_YELLOW: Rgb := Rgb(255, 255, 224)
  const SADDLE_BROWN: Rgb := Rgb(139, 69, 19)
  const SIENNA: Rgb := Rgb(160, 82, 45)
  const CHOCOLATE: Rgb := Rgb(210, 105, 30)
  const PERU: Rgb := Rgb(205, 133, 63)
  const SANDY_BROWN: Rgb := Rgb(244, 164, 96)
  const BURLY_WOOD: Rgb := Rgb(222, 184, 135)
  const TAN: Rgb := Rgb(210, 180, 140)
  const ROSY_BROWN: Rgb := Rgb(188, 143, 143)
  const MOCCASIN: Rgb := Rgb(255, 228, 181)
  const NAVAJO_WHITE: Rgb := Rgb(255, 222, 173)
  const PEACH_PUFF: Rgb := Rgb(255, 218, 185)
  const MISTY_ROSE: Rgb := Rgb(255, 228, 225)
  const LAVENDER_BLUSH: Rgb := Rgb(255, 240, 245)
  const LINEN: Rgb := Rgb(250, 240, 230)
  const OLD_LACE: Rgb := Rgb(253, 245, 230)
  const PAPAYA_WHIP: Rgb := Rgb(255, 239, 213)
  const SEA_SHELL: Rgb := Rgb(255, 245, 238)
  const MINT_CREAM: Rgb := Rgb(245, 255, 250)
  const SLATE_GRAY: Rgb := Rgb(112, 128, 144)
  const LIGHT_SLATE_GRAY: Rgb := Rgb(119, 136, 153)
  const LIGHT_STEEL_BLUE: Rgb := Rgb(176, 196, 222)
  const LAVENDER: Rgb := Rgb(230, 230, 250)
  const FLORAL_WHITE: Rgb := Rgb(255, 250, 240)
  const ALICE_BLUE: Rgb := Rgb(240, 248, 255)
  const GHOST_WHITE: Rgb := Rgb(248, 248, 255)
  const HONEYDEW: Rgb := Rgb(240, 255, 240)
  const IVORY: Rgb := Rgb(255, 255, 240)
  const AZURE: Rgb := Rgb(240, 255, 255)
  const SNOW: Rgb := Rgb(255, 250, 250)
  const BLACK: Rgb := Rgb(0, 0, 0)
  const DIM_GRAY: Rgb := Rgb(105, 105, 105)
  const GRAY: Rgb := Rgb(128, 128, 128)
  const DARK_GRAY: Rgb := Rgb(169, 169, 169)
  const SILVER: Rgb := Rgb(192, 192, 192)
  const LIGHT_GRAY: Rgb := Rgb(211, 211, 211)
  const GAINSBORO: Rgb := Rgb(220, 220, 220)
  const WHITE_SMOKE: Rgb := Rgb(245, 245, 245)
  const WHITE: Rgb := Rgb(255, 255, 255)

  // The table is written in blocks of 10 entries so that facts about each
  // block stay small; `COLOR_TABLE` is their concatenation, in source order.
  const TABLE_0: seq<(string, Rgb)> := [
    ("MAROON", MAROON),
    ("DARK_RED", DARK_RED),
    ("BROWN", BROWN),
    ("FIREBRICK", FIREBRICK),
    ("CRIMSON", CRIMSON),
    ("RED", RED),
    ("TOMATO", TOMATO),
    ("CORAL", CORAL),
    ("INDIAN_RED", INDIAN_RED),
    ("LIGHT_CORAL", LIGHT_CORAL)
  ]
  const TABLE_1: seq<(string, Rgb)> := [
    ("DARK_SALMON", DARK_SALMON),
    ("SALMON", SALMON),
    ("LIGHT_SALMON", LIGHT_SALMON),
    ("ORANGE_RED", ORANGE_RED),
    ("DARK_ORANGE", DARK_ORANGE),
    ("ORANGE", ORANGE),
    ("GOLD", GOLD),
    ("DARK_GOLDEN_ROD", DARK_GOLDEN_ROD),
    ("GOLDEN_ROD", GOLDEN_ROD),
    ("PALE_GOLDEN_ROD", PALE_GOLDEN_ROD)
  ]
  const TABLE_2: seq<(string, Rgb)> := [
    ("DARK_KHAKI", DARK_KHAKI),
    ("KHAKI", KHAKI),
    ("OLIVE", OLIVE),
    ("YELLOW", YELLOW),
    ("YELLOW_GREEN", YELLOW_GREEN),
    ("DARK_OLIVE_GREEN", DARK_OLIVE_GREEN),
    ("OLIVE_DRAB", OLIVE_DRAB),
    ("LAWN_GREEN", LAWN_GREEN),
    ("CHARTREUSE", CHARTREUSE),
    ("GREEN_YELLOW", GREEN_YELLOW)
  ]
  const TABLE_3: seq<(string, Rgb)> := [
    ("DARK_GREEN", DARK_GREEN),
    ("GREEN", GREEN),
    ("FOREST_GREEN", FOREST_GREEN),
    ("LIME", LIME),
    ("LIME_GREEN", LIME_GREEN),
    ("LIGHT_GREEN", LIGHT_GREEN),
    ("PALE_GREEN", PALE_GREEN),
    ("DARK_SEA_GREEN", DARK_SEA_GREEN),
    ("MEDIUM_SPRING_GREEN", MEDIUM_SPRING_GREEN),
    ("SPRING_GREEN", SPRING_GREEN)
  ]
  const TABLE_4: seq<(string, Rgb)> := [
    ("SEA_GREEN", SEA_GREEN),
    ("MEDIUM_AQUA_MARINE", MEDIUM_AQUA_MARINE),
    ("MEDIUM_SEA_GREEN", MEDIUM_SEA_GREEN),
    ("LIGHT_SEA_GREEN", LIGHT_SEA_GREEN),
    ("DARK_SLATE_GRAY", DARK_SLATE_GRAY),
    ("TEAL", TEAL),
    ("DARK_CYAN", DARK_CYAN),
    ("AQUA", AQUA),
    ("CYAN", CYAN),
    ("LIGHT_CYAN", LIGHT_CYAN)
  ]
  const TABLE_5: seq<(string, Rgb)> := [
    ("DARK_TURQUOISE", DARK_TURQUOISE),
    ("TURQUOISE", TURQUOISE),
    ("MEDIUM_TURQUOISE", MEDIUM_TURQUOISE),
    ("PALE_TURQUOISE", PALE_TURQUOISE),
    ("AQUA_MARINE", AQUA_MARINE),
    ("POWDER_BLUE", POWDER_BLUE),
    ("CADET_BLUE", CADET_BLUE),
    ("STEEL_BLUE", STEEL_BLUE),
    ("CORN_FLOWER_BLUE", CORN_FLOWER_BLUE),
    ("DEEP_SKY_BLUE", DEEP_SKY_BLUE)
  ]
  const TABLE_6: seq<(string, Rgb)> := [
    ("DODGER_BLUE", DODGER_BLUE),
    ("LIGHT_BLUE", LIGHT_BLUE),
    ("SKY_BLUE", SKY_BLUE),
    ("LIGHT_SKY_BLUE", LIGHT_SKY_BLUE),
    ("MIDNIGHT_BLUE", MIDNIGHT_BLUE),
    ("NAVY", NAVY),
    ("DARK_BLUE", DARK_BLUE),
    ("MEDIUM_BLUE", MEDIUM_BLUE),
    ("BLUE", BLUE),
    ("ROYAL_BLUE", ROYAL_BLUE)
  ]
  const TABLE_7: seq<(string, Rgb)> := [
    ("BLUE_VIOLET", BLUE_VIOLET),
    ("INDIGO", INDIGO),
    ("DARK_SLATE_BLUE", DARK_SLATE_BLUE),
    ("SLATE_BLUE", SLATE_BLUE),
    ("MEDIUM_SLATE_BLUE", MEDIUM_SLATE_BLUE),
    ("MEDIUM_PURPLE", MEDIUM_PURPLE),
    ("DARK_MAGENTA", DARK_MAGENTA),
    ("DARK_VIOLET", DARK_VIOLET),
    ("DARK_ORCHID", DARK_ORCHID),
    ("MEDIUM_ORCHID", MEDIUM_ORCHID)
  ]
  const TABLE_8: seq<(string, Rgb)> := [
    ("PURPLE", PURPLE),
    ("THISTLE", THISTLE),
    ("PLUM", PLUM),
    ("VIOLET", VIOLET),
    ("MAGENTA", MAGENTA),
    ("ORCHID", ORCHID),
    ("MEDIUM_VIOLET_RED", MEDIUM_VIOLET_RED),
    ("PALE_VIOLET_RED", PALE_VIOLET_RED),
    ("DEEP_PINK", DEEP_PINK),
    ("HOT_PINK", HOT_PINK)
  ]
  const TABLE_9: seq<(string, Rgb)> := [
    ("LIGHT_PINK", LIGHT_PINK),
    ("PINK", PINK),
    ("ANTIQUE_WHITE", ANTIQUE_WHITE),
    ("BEIGE", BEIGE),
    ("BISQUE", BISQUE),
    ("BLANCHED_ALMOND", BLANCHED_ALMOND),
    ("WHEAT", WHEAT),
    ("CORN_SILK", CORN_SILK),
    ("LEMON_CHIFFON", LEMON_CHIFFON),
    ("LIGHT_GOLDEN_ROD_YELLOW", LIGHT_GOLDEN_ROD_YELLOW)
  ]
  const TABLE_10: seq<(string, Rgb)> := [
    ("LIGHT_YELLOW", LIGHT_YELLOW),
    ("SADDLE_BROWN", SADDLE_BROWN),
    ("SIENNA", SIENNA),
    ("CHOCOLATE", CHOCOLATE),
    ("PERU", PERU),
    ("SANDY_BROWN", SANDY_BROWN),
    ("BURLY_WOOD", BURLY_WOOD),
    ("TAN", TAN),
    ("ROSY_BROWN", ROSY_BROWN),
    ("MOCCASIN", MOCCASIN)
  ]
  const TABLE_11: seq<(string, Rgb)> := [
    ("NAVAJO_WHITE", NAVAJO_WHITE),
    ("PEACH_PUFF", PEACH_PUFF),
    ("MISTY_ROSE", MISTY_ROSE),
    ("LAVENDER_BLUSH", LAVENDER_BLUSH),
    ("LINEN", LINEN),
    ("OLD_LACE", OLD_LACE),
    ("PAPAYA_WHIP", PAPAYA_WHIP),
    ("SEA_SHELL", SEA_SHELL),
    ("MINT_CREAM", MINT_CREAM),
    ("SLATE_GRAY", SLATE_GRAY)
  ]
  const TABLE_12: seq<(string, Rgb)> := [
    ("LIGHT_SLATE_GRAY", LIGHT_SLATE_GRAY),
    ("LIGHT_STEEL_BLUE", LIGHT_STEEL_BLUE),
    ("LAVENDER", LAVENDER),
    ("FLORAL_WHITE", FLORAL_WHITE),
    ("ALICE_BLUE", ALICE_BLUE),
    ("GHOST_WHITE", GHOST_WHITE),
    ("HONEYDEW", HONEYDEW),
    ("IVORY", IVORY),
    ("AZURE", AZURE),
    ("SNOW", SNOW)
  ]
  const TABLE_13: seq<(string, Rgb)> := [
    ("BLACK", BLACK),
    ("DIM_GRAY", DIM_GRAY),
    ("GRAY", GRAY),
    ("DARK_GRAY", DARK_GRAY),
    ("SILVER", SILVER),
    ("LIGHT_GRAY", LIGHT_GRAY),
    ("GAINSBORO", GAINSBORO),
    ("WHITE_SMOKE", WHITE_SMOKE),
    ("WHITE", WHITE)
  ]

  /** `COLOR_TABLE`. */
  const COLOR_TABLE: seq<(string, Rgb)> :=
    TABLE_0 + TABLE_1 + TABLE_2 + TABLE_3 + TABLE_4 + TABLE_5 + TABLE_6 + TABLE_7 + TABLE_8 + TABLE_9 + TABLE_10 + TABLE_11 + TABLE_12 + TABLE_13

  /** The first entry of `t` named `n`. */
  function Find(t: seq<(string, Rgb)>, n: string): (r: Option<Rgb>)
    ensures r.Some? <==> exists i :: 0 <= i < |t| && t[i].0 == n
    ensures r.Some? ==> exists i :: 0 <= i < |t| && t[i] == (n, r.value)
                                    && forall j :: 0 <= j < i ==> t[j].0 != n
  {
    if |t| == 0 then None
    else if t[0].0 == n then Some(t[0].1)
    else
      var r := Find(t[1..], n);
      assert forall i :: 1 <= i < |t| ==> t[i] == t[1..][i - 1];
      if r.Some? then
        var k :| 0 <= k < |t[1..]| && t[1..][k] == (n, r.value)
                 && forall j :: 0 <= j < k ==> t[1..][j].0 != n;
        assert t[k + 1] == (n, r.value);
        r
      else r
  }

  /** `from_name`: the colour of the first table entry whose name equals
      the argument upper-cased. */
  function FromName(name: string): (r: Option<Rgb>)
    ensures r.Some? <==> exists i :: 0 <= i < |COLOR_TABLE| && COLOR_TABLE[i].0 == ToAsciiUpper(name)
    ensures r.Some? ==> exists i :: 0 <= i < |COLOR_TABLE| && COLOR_TABLE[i] == (ToAsciiUpper(name), r.value)
  {
    Find(COLOR_TABLE, ToAsciiUpper(name))
  }

  /** `all_names`: the whole table. */
  function AllNames(): (r: seq<(string, Rgb)>)
    ensures |r| > 100
    ensures forall i :: 0 <= i < |r| ==> FromName(r[i].0) == Some(r[i].1)
  {
    TableFacts();
    forall i | 0 <= i < |COLOR_TABLE|
      ensures FromName(COLOR_TABLE[i].0) == Some(COLOR_TABLE[i].1)
    {
      FromNameOfTableName(i);
    }
    COLOR_TABLE
  }

  /** A non-empty name of upper-case letters and underscores. */
  predicate TableName(s: string) {
    |s| > 0 && forall i :: 0 <= i < |s| ==> 'A' <= s[i] <= 'Z' || s[i] == '_'
  }

  predicate NamesOk(t: seq<(string, Rgb)>) {
    forall i :: 0 <= i < |t| ==> TableName(t[i].0)
  }

  predicate NamesDistinct(t: seq<(string, Rgb)>) {
    forall i, j :: 0 <= i < j < |t| ==> t[i].0 != t[j].0
  }

  predicate NamesDisjoint(a: seq<(string, Rgb)>, b: seq<(string, Rgb)>) {
    forall i, j :: 0 <= i < |a| && 0 <= j < |b| ==> a[i].0 != b[j].0
  }

  lemma ConcatNamesOk(a: seq<(string, Rgb)>, b: seq<(string, Rgb)>)
    requires NamesOk(a) && NamesOk(b)
    ensures NamesOk(a + b)
  {
    forall i | 0 <= i < |a + b| ensures TableName((a + b)[i].0) {
      if i < |a| { assert (a + b)[i] == a[i]; } else { assert (a + b)[i] == b[i - |a|]; }
    }
  }

  lemma ConcatDistinct(a: seq<(string, Rgb)>, b: seq<(string, Rgb)>)
    requires NamesDistinct(a) && NamesDistinct(b) && NamesDisjoint(a, b)
    ensures NamesDistinct(a + b)
  {
    forall i, j | 0 <= i < j < |a + b| ensures (a + b)[i].0 != (a + b)[j].0 {
      if j < |a| {
        assert (a + b)[i] == a[i] && (a + b)[j] == a[j];
      } else if i < |a| {
        assert (a + b)[i] == a[i] && (a + b)[j] == b[j - |a|];
      } else {
        assert (a + b)[i] == b[i - |a|] && (a + b)[j] == b[j - |a|];
      }
    }
  }

  lemma ConcatDisjoint(a: seq<(string, Rgb)>, b: seq<(string, Rgb)>, c: seq<(string, Rgb)>)
    requires NamesDisjoint(a, c) && NamesDisjoint(b, c)
    ensures NamesDisjoint(a + b, c)
  {
    forall i, j | 0 <= i < |a + b| && 0 <= j < |c| ensures (a + b)[i].0 != c[j].0 {
      if i < |a| { assert (a + b)[i] == a[i]; } else { assert (a + b)[i] == b[i - |a|]; }
    }
  }

  lemma Block0()
    ensures NamesOk(TABLE_0) && NamesDistinct(TABLE_0)
  {
    BlockNames0();
  }

  lemma BlockNames0()
    ensures NamesOk(TABLE_0)
  {
    BlockNames0Low();
    BlockNames0High();
  }

  lemma BlockNames0Low()
    ensures forall i :: 0 <= i < 5 ==> TableName(TABLE_0[i].0)
  {
    assert TableName(TABLE_0[0].0);
    assert TableName(TABLE_0[1].0);
    assert TableName(TABLE_0[2].0);
    assert TableName(TABLE_0[3].0);
    assert TableName(TABLE_0[4].0);
  }

  lemma BlockNames0High()
    ensures forall i :: 5 <= i < |TABLE_0| ==> TableName(TABLE_0[i].0)
  {
    assert TableName(TABLE_0[5].0);
    assert TableName(TABLE_0[6].0);
    assert TableName(TABLE_0[7].0);
    assert TableName(TABLE_0[8].0);
    assert TableName(TABLE_0[9].0);
  }

  lemma Block1()
    ensures NamesOk(TABLE_1) && NamesDistinct(TABLE_1)
  {
    BlockNames1();
  }

  lemma BlockNames1()
    ensures NamesOk(TABLE_1)
  {
    BlockNames1Low();
    BlockNames1High();
  }

  lemma BlockNames1Low()
    ensures forall i :: 0 <= i < 5 ==> TableName(TABLE_1[i].0)
  {
    assert TableName(TABLE_1[0].0);
    assert TableName(TABLE_1[1].0);
    assert TableName(TABLE_1[2].0);
    assert TableName(TABLE_1[3].0);
    assert TableName(TABLE_1[4].0);
  }

  lemma BlockNames1High()
    ensures forall i :: 5 <= i < |TABLE_1| ==> TableName(TABLE_1[i].0)
  {
    assert TableName(TABLE_1[5].0);
    assert TableName(TABLE_1[6].0);
    assert TableName(TABLE_1[7].0);
    assert TableName(TABLE_1[8].0);
    assert TableName(TABLE_1[9].0);
  }

  lemma Block2()
    ensures NamesOk(TABLE_2) && NamesDistinct(TABLE_2)
  {
    BlockNames2();
  }

  lemma BlockNames2()
    ensures NamesOk(TABLE_2)
  {
    BlockNames2Low();
    BlockNames2High();
  }

  lemma BlockNames2Low()
    ensures forall i :: 0 <= i < 5 ==> TableName(TABLE_2[i].0)
  {
    assert TableName(TABLE_2[0].0);
    assert TableName(TABLE_2[1].0);
    assert TableName(TABLE_2[2].0);
    assert TableName(TABLE_2[3].0);
    assert TableName(TABLE_2[4].0);
  }

  lemma BlockNames2High()
    ensures forall i :: 5 <= i < |TABLE_2| ==> TableName(TABLE_2[i].0)
  {
    assert TableName(TABLE_2[5].0);
    assert TableName(TABLE_2[6].0);
    assert TableName(TABLE_2[7].0);
    assert TableName(TABLE_2[8].0);
    assert TableName(TABLE_2[9].0);
  }

  lemma Block3()
    ensures NamesOk(TABLE_3) && NamesDistinct(TABLE_3)
  {
    BlockNames3();
  }

  lemma BlockNames3()
    ensures NamesOk(TABLE_3)
  {
    BlockNames3Low();
    BlockNames3High();
  }

  lemma BlockNames3Low()
    ensures forall i :: 0 <= i < 5 ==> TableName(TABLE_3[i].0)
  {
    assert TableName(TABLE_3[0].0);
    assert TableName(TABLE_3[1].0);
    assert TableName(TABLE_3[2].0);
    assert TableName(TABLE_3[3].0);
    assert TableName(TABLE_3[4].0);
  }

  lemma BlockNames3High()
    ensures forall i :: 5 <= i < |TABLE_3| ==> TableName(TABLE_3[i].0)
  {
    assert TableName(TABLE_3[5].0);
    assert TableName(TABLE_3[6].0);
    assert TableName(TABLE_3[7].0);
    assert TableName(TABLE_3[8].0);
    assert TableName(TABLE_3[9].0);
  }

  lemma Block4()
    ensures NamesOk(TABLE_4) && NamesDistinct(TABLE_4)
  {
    BlockNames4();
  }

  lemma BlockNames4()
    ensures NamesOk(TABLE_4)
  {
    BlockNames4Low();
    BlockNames4High();
  }

  lemma BlockNames4Low()
    ensures forall i :: 0 <= i < 5 ==> TableName(TABLE_4[i].0)
  {
    assert TableName(TABLE_4[0].0);
    assert TableName(TABLE_4[1].0);
    assert TableName(TABLE_4[2].0);
    assert TableName(TABLE_4[3].0);
    assert TableName(TABLE_4[4].0);
  }

  lemma BlockNames4High()
    ensures forall i :: 5 <= i < |TABLE_4| ==> TableName(TABLE_4[i].0)
  {
    assert TableName(TABLE_4[5].0);
    assert TableName(TABLE_4[6].0);
    assert TableName(TABLE_4[7].0);
    assert TableName(TABLE_4[8].0);
    assert TableName(TABLE_4[9].0);
  }

  lemma Block5()
    ensures NamesOk(TABLE_5) && NamesDistinct(TABLE_5)
  {
    BlockNames5();
  }

  lemma BlockNames5()
    ensures NamesOk(TABLE_5)
  {
    BlockNames5Low();
    BlockNames5High();
  }

  lemma BlockNames5Low()
    ensures forall i :: 0 <= i < 5 ==> TableName(TABLE_5[i].0)
  {
    assert TableName(TABLE_5[0].0);
    assert TableName(TABLE_5[1].0);
    assert TableName(TABLE_5[2].0);
    assert TableName(TABLE_5[3].0);
    assert TableName(TABLE_5[4].0);
  }

  lemma BlockNames5High()
    ensures forall i :: 5 <= i < |TABLE_5| ==> TableName(TABLE_5[i].0)
  {
    assert TableName(TABLE_5[5].0);
    assert TableName(TABLE_5[6].0);
    assert TableName(TABLE_5[7].0);
    assert TableName(TABLE_5[8].0);
    assert TableName(TABLE_5[9].0);
  }

  lemma Block6()
    ensures NamesOk(TABLE_6) && NamesDistinct(TABLE_6)
  {
    BlockNames6();
  }

  lemma BlockNames6()
    ensures NamesOk(TABLE_6)
  {
    BlockNames6Low();
    BlockNames6High();
  }

  lemma BlockNames6Low()
    ensures forall i :: 0 <= i < 5 ==> TableName(TABLE_6[i].0)
  {
    assert TableName(TABLE_6[0].0);
    assert TableName(TABLE_6[1].0);
    assert TableName(TABLE_6[2].0);
    assert TableName(TABLE_6[3].0);
    assert TableName(TABLE_6[4].0);
  }

  lemma BlockNames6High()
    ensures forall i :: 5 <= i < |TABLE_6| ==> TableName(TABLE_6[i].0)
  {
    assert TableName(TABLE_6[5].0);
    assert TableName(TABLE_6[6].0);
    assert TableName(TABLE_6[7].0);
    assert TableName(TABLE_6[8].0);
    assert TableName(TABLE_6[9].0);
  }

  lemma Block7()
    ensures NamesOk(TABLE_7) && NamesDistinct(TABLE_7)
  {
    BlockNames7();
  }

  lemma BlockNames7()
    ensures NamesOk(TABLE_7)
  {
    BlockNames7Low();
    BlockNames7High();
  }

  lemma BlockNames7Low()
    ensures forall i :: 0 <= i < 5 ==> TableName(TABLE_7[i].0)
  {
    assert TableName(TABLE_7[0].0);
    assert TableName(TABLE_7[1].0);
    assert TableName(TABLE_7[2].0);
    assert TableName(TABLE_7[3].0);
    assert TableName(TABLE_7[4].0);
  }

  lemma BlockNames7High()
    ensures forall i :: 5 <= i < |TABLE_7| ==> TableName(TABLE_7[i].0)
  {
    assert TableName(TABLE_7[5].0);
    assert TableName(TABLE_7[6].0);
    assert TableName(TABLE_7[7].0);
    assert TableName(TABLE_7[8].0);
    assert TableName(TABLE_7[9].0);
  }

  lemma Block8()
    ensures NamesOk(TABLE_8) && NamesDistinct(TABLE_8)
  {
    BlockNames8();
  }

  lemma BlockNames8()
    ensures NamesOk(TABLE_8)
  {
    BlockNames8Low();
    BlockNames8High();
  }

  lemma BlockNames8Low()
    ensures forall i :: 0 <= i < 5 ==> TableName(TABLE_8[i].0)
  {
    assert TableName(TABLE_8[0].0);
    assert TableName(TABLE_8[1].0);
    assert TableName(TABLE_8[2].0);
    assert TableName(TABLE_8[3].0);
    assert TableName(TABLE_8[4].0);
  }

  lemma BlockNames8High()
    ensures forall i :: 5 <= i < |TABLE_8| ==> TableName(TABLE_8[i].0)
  {
    assert TableName(TABLE_8[5].0);
    assert TableName(TABLE_8[6].0);
    assert TableName(TABLE_8[7].0);
    assert TableName(TABLE_8[8].0);
    assert TableName(TABLE_8[9].0);
  }

  lemma Block9()
    ensures NamesOk(TABLE_9) && NamesDistinct(TABLE_9)
  {
    BlockNames9();
  }

  lemma BlockNames9()
    ensures NamesOk(TABLE_9)
  {
    BlockNames9Low();
    BlockNames9High();
  }

  lemma BlockNames9Low()
    ensures forall i :: 0 <= i < 5 ==> TableName(TABLE_9[i].0)
  {
    assert TableName(TABLE_9[0].0);
    assert TableName(TABLE_9[1].0);
    assert TableName(TABLE_9[2].0);
    assert TableName(TABLE_9[3].0);
    assert TableName(TABLE_9[4].0);
  }

  lemma BlockNames9High()
    ensures forall i :: 5 <= i < |TABLE_9| ==> TableName(TABLE_9[i].0)
  {
    assert TableName(TABLE_9[5].0);
    assert TableName(TABLE_9[6].0);
    assert TableName(TABLE_9[7].0);
    assert TableName(TABLE_9[8].0);
    assert TableName(TABLE_9[9].0);
  }

  lemma Block10()
    ensures NamesOk(TABLE_10) && NamesDistinct(TABLE_10)
  {
    BlockNames10();
  }

  lemma BlockNames10()
    ensures NamesOk(TABLE_10)
  {
    BlockNames10Low();
    BlockNames10High();
  }

  lemma BlockNames10Low()
    ensures forall i :: 0 <= i < 5 ==> TableName(TABLE_10[i].0)
  {
    assert TableName(TABLE_10[0].0);
    assert TableName(TABLE_10[1].0);
    assert TableName(TABLE_10[2].0);
    assert TableName(TABLE_10[3].0);
    assert TableName(TABLE_10[4].0);
  }

  lemma BlockNames10High()
    ensures forall i :: 5 <= i < |TABLE_10| ==> TableName(TABLE_10[i].0)
  {
    assert TableName(TABLE_10[5].0);
    assert TableName(TABLE_10[6].0);
    assert TableName(TABLE_10[7].0);
    assert TableName(TABLE_10[8].0);
    assert TableName(TABLE_10[9].0);
  }

  lemma Block11()
    ensures NamesOk(TABLE_11) && NamesDistinct(TABLE_11)
  {
    BlockNames11();
  }

  lemma BlockNames11()
    ensures NamesOk(TABLE_11)
  {
    BlockNames11Low();
    BlockNames11High();
  }

  lemma BlockNames11Low()
    ensures forall i :: 0 <= i < 5 ==> TableName(TABLE_11[i].0)
  {
    assert TableName(TABLE_11[0].0);
    assert TableName(TABLE_11[1].0);
    assert TableName(TABLE_11[2].0);
    assert TableName(TABLE_11[3].0);
    assert TableName(TABLE_11[4].0);
  }

  lemma BlockNames11High()
    ensures forall i :: 5 <= i < |TABLE_11| ==> TableName(TABLE_11[i].0)
  {
    assert TableName(TABLE_11[5].0);
    assert TableName(TABLE_11[6].0);
    assert TableName(TABLE_11[7].0);
    assert TableName(TABLE_11[8].0);
    assert TableName(TABLE_11[9].0);
  }

  lemma Block12()
    ensures NamesOk(TABLE_12) && NamesDistinct(TABLE_12)
  {
    BlockNames12();
  }

  lemma BlockNames12()
    ensures NamesOk(TABLE_12)
  {
    BlockNames12Low();
    BlockNames12High();
  }

  lemma BlockNames12Low()
    ensures forall i :: 0 <= i < 5 ==> TableName(TABLE_12[i].0)
  {
    assert TableName(TABLE_12[0].0);
    assert TableName(TABLE_12[1].0);
    assert TableName(TABLE_12[2].0);
    assert TableName(TABLE_12[3].0);
    assert TableName(TABLE_12[4].0);
  }

  lemma BlockNames12High()
    ensures forall i :: 5 <= i < |TABLE_12| ==> TableName(TABLE_12[i].0)
  {
    assert TableName(TABLE_12[5].0);
    assert TableName(TABLE_12[6].0);
    assert TableName(TABLE_12[7].0);
    assert TableName(TABLE_12[8].0);
    assert TableName(TABLE_12[9].0);
  }

  lemma Block13()
    ensures NamesOk(TABLE_13) && NamesDistinct(TABLE_13)
  {
    BlockNames13();
  }

  lemma BlockNames13()
    ensures NamesOk(TABLE_13)
  {
    BlockNames13Low();
    BlockNames13High();
  }

  lemma BlockNames13Low()
    ensures forall i :: 0 <= i < 4 ==> TableName(TABLE_13[i].0)
  {
    assert TableName(TABLE_13[0].0);
    assert TableName(TABLE_13[1].0);
    assert TableName(TABLE_13[2].0);
    assert TableName(TABLE_13[3].0);
  }

  lemma BlockNames13High()
    ensures forall i :: 4 <= i < |TABLE_13| ==> TableName(TABLE_13[i].0)
  {
    assert TableName(TABLE_13[4].0);
    assert TableName(TABLE_13[5].0);
    assert TableName(TABLE_13[6].0);
    assert TableName(TABLE_13[7].0);
    assert TableName(TABLE_13[8].0);
  }

  lemma Disjoint_0_1()
    ensures NamesDisjoint(TABLE_0, TABLE_1)
  {
  }

  lemma Disjoint_0_2()
    ensures NamesDisjoint(TABLE_0, TABLE_2)
  {
  }

  lemma Disjoint_1_2()
    ensures NamesDisjoint(TABLE_1, TABLE_2)
  {
  }

  lemma Disjoint_0_3()
    ensures NamesDisjoint(TABLE_0, TABLE_3)
  {
  }

  lemma Disjoint_1_3()
    ensures NamesDisjoint(TABLE_1, TABLE_3)
  {
  }

  lemma Disjoint_2_3()
    ensures NamesDisjoint(TABLE_2, TABLE_3)
  {
  }

  lemma Disjoint_0_4()
    ensures NamesDisjoint(TABLE_0, TABLE_4)
  {
  }

  lemma Disjoint_1_4()
    ensures NamesDisjoint(TABLE_1, TABLE_4)
  {
  }

  lemma Disjoint_2_4()
    ensures NamesDisjoint(TABLE_2, TABLE_4)
  {
  }

  lemma Disjoint_3_4()
    ensures NamesDisjoint(TABLE_3, TABLE_4)
  {
  }

  lemma Disjoint_0_5()
    ensures NamesDisjoint(TABLE_0, TABLE_5)
  {
  }

  lemma Disjoint_1_5()
    ensures NamesDisjoint(TABLE_1, TABLE_5)
  {
  }

  lemma Disjoint_2_5()
    ensures NamesDisjoint(TABLE_2, TABLE_5)
  {
  }

  lemma Disjoint_3_5()
    ensures NamesDisjoint(TABLE_3, TABLE_5)
  {
  }

  lemma Disjoint_4_5()
    ensures NamesDisjoint(TABLE_4, TABLE_5)
  {
  }

  lemma Disjoint_0_6()
    ensures NamesDisjoint(TABLE_0, TABLE_6)
  {
  }

  lemma Disjoint_1_6()
    ensures NamesDisjoint(TABLE_1, TABLE_6)
  {
  }

  lemma Disjoint_2_6()
    ensures NamesDisjoint(TABLE_2, TABLE_6)
  {
  }

  lemma Disjoint_3_6()
    ensures NamesDisjoint(TABLE_3, TABLE_6)
  {
  }

  lemma Disjoint_4_6()
    ensures NamesDisjoint(TABLE_4, TABLE_6)
  {
  }

  lemma Disjoint_5_6()
    ensures NamesDisjoint(TABLE_5, TABLE_6)
  {
  }

  lemma Disjoint_0_7()
    ensures NamesDisjoint(TABLE_0, TABLE_7)
  {
  }

  lemma Disjoint_1_7()
    ensures NamesDisjoint(TABLE_1, TABLE_7)
  {
  }

  lemma Disjoint_2_7()
    ensures NamesDisjoint(TABLE_2, TABLE_7)
  {
  }

  lemma Disjoint_3_7()
    ensures NamesDisjoint(TABLE_3, TABLE_7)
  {
  }

  lemma Disjoint_4_7()
    ensures NamesDisjoint(TABLE_4, TABLE_7)
  {
  }

  lemma Disjoint_5_7()
    ensures NamesDisjoint(TABLE_5, TABLE_7)
  {
  }

  lemma Disjoint_6_7()
    ensures NamesDisjoint(TABLE_6, TABLE_7)
  {
  }

  lemma Disjoint_0_8()
    ensures NamesDisjoint(TABLE_0, TABLE_8)
  {
  }

  lemma Disjoint_1_8()
    ensures NamesDisjoint(TABLE_1, TABLE_8)
  {
  }

  lemma Disjoint_2_8()
    ensures NamesDisjoint(TABLE_2, TABLE_8)
  {
  }

  lemma Disjoint_3_8()
    ensures NamesDisjoint(TABLE_3, TABLE_8)
  {
  }

  lemma Disjoint_4_8()
    ensures NamesDisjoint(TABLE_4, TABLE_8)
  {
  }

  lemma Disjoint_5_8()
    ensures NamesDisjoint(TABLE_5, TABLE_8)
  {
  }

  lemma Disjoint_6_8()
    ensures NamesDisjoint(TABLE_6, TABLE_8)
  {
  }

  lemma Disjoint_7_8()
    ensures NamesDisjoint(TABLE_7, TABLE_8)
  {
  }

  lemma Disjoint_0_9()
    ensures NamesDisjoint(TABLE_0, TABLE_9)
  {
  }

  lemma Disjoint_1_9()
    ensures NamesDisjoint(TABLE_1, TABLE_9)
  {
  }

  lemma Disjoint_2_9()
    ensures NamesDisjoint(TABLE_2, TABLE_9)
  {
  }

  lemma Disjoint_3_9()
    ensures NamesDisjoint(TABLE_3, TABLE_9)
  {
  }

  lemma Disjoint_4_9()
    ensures NamesDisjoint(TABLE_4, TABLE_9)
  {
  }

  lemma Disjoint_5_9()
    ensures NamesDisjoint(TABLE_5, TABLE_9)
  {
  }

  lemma Disjoint_6_9()
    ensures NamesDisjoint(TABLE_6, TABLE_9)
  {
  }

  lemma Disjoint_7_9()
    ensures NamesDisjoint(TABLE_7, TABLE_9)
  {
  }

  lemma Disjoint_8_9()
    ensures NamesDisjoint(TABLE_8, TABLE_9)
  {
  }

  lemma Disjoint_0_10()
    ensures NamesDisjoint(TABLE_0, TABLE_10)
  {
  }

  lemma Disjoint_1_10()
    ensures NamesDisjoint(TABLE_1, TABLE_10)
  {
  }

  lemma Disjoint_2_10()
    ensures NamesDisjoint(TABLE_2, TABLE_10)
  {
  }

  lemma Disjoint_3_10()
    ensures NamesDisjoint(TABLE_3, TABLE_10)
  {
  }

  lemma Disjoint_4_10()
    ensures NamesDisjoint(TABLE_4, TABLE_10)
  {
  }

  lemma Disjoint_5_10()
    ensures NamesDisjoint(TABLE_5, TABLE_10)
  {
  }

  lemma Disjoint_6_10()
    ensures NamesDisjoint(TABLE_6, TABLE_10)
  {
  }

  lemma Disjoint_7_10()
    ensures NamesDisjoint(TABLE_7, TABLE_10)
  {
  }

  lemma Disjoint_8_10()
    ensures NamesDisjoint(TABLE_8, TABLE_10)
  {
  }

  lemma Disjoint_9_10()
    ensures NamesDisjoint(TABLE_9, TABLE_10)
  {
  }

  lemma Disjoint_0_11()
    ensures NamesDisjoint(TABLE_0, TABLE_11)
  {
  }

  lemma Disjoint_1_11()
    ensures NamesDisjoint(TABLE_1, TABLE_11)
  {
  }

  lemma Disjoint_2_11()
    ensures NamesDisjoint(TABLE_2, TABLE_11)
  {
  }

  lemma Disjoint_3_11()
    ensures NamesDisjoint(TABLE_3, TABLE_11)
  {
  }

  lemma Disjoint_4_11()
    ensures NamesDisjoint(TABLE_4, TABLE_11)
  {
  }

  lemma Disjoint_5_11()
    ensures NamesDisjoint(TABLE_5, TABLE_11)
  {
  }

  lemma Disjoint_6_11()
    ensures NamesDisjoint(TABLE_6, TABLE_11)
  {
  }

  lemma Disjoint_7_11()
    ensures NamesDisjoint(TABLE_7, TABLE_11)
  {
  }

  lemma Disjoint_8_11()
    ensures NamesDisjoint(TABLE_8, TABLE_11)
  {
  }

  lemma Disjoint_9_11()
    ensures NamesDisjoint(TABLE_9, TABLE_11)
  {
  }

  lemma Disjoint_10_11()
    ensures NamesDisjoint(TABLE_10, TABLE_11)
  {
  }

  lemma Disjoint_0_12()
    ensures NamesDisjoint(TABLE_0, TABLE_12)
  {
  }

  lemma Disjoint_1_12()
    ensures NamesDisjoint(TABLE_1, TABLE_12)
  {
  }

  lemma Disjoint_2_12()
    ensures NamesDisjoint(TABLE_2, TABLE_12)
  {
  }

  lemma Disjoint_3_12()
    ensures NamesDisjoint(TABLE_3, TABLE_12)
  {
  }

  lemma Disjoint_4_12()
    ensures NamesDisjoint(TABLE_4, TABLE_12)
  {
  }

  lemma Disjoint_5_12()
    ensures NamesDisjoint(TABLE_5, TABLE_12)
  {
  }

  lemma Disjoint_6_12()
    ensures NamesDisjoint(TABLE_6, TABLE_12)
  {
  }

  lemma Disjoint_7_12()
    ensures NamesDisjoint(TABLE_7, TABLE_12)
  {
  }

  lemma Disjoint_8_12()
    ensures NamesDisjoint(TABLE_8, TABLE_12)
  {
  }

  lemma Disjoint_9_12()
    ensures NamesDisjoint(TABLE_9, TABLE_12)
  {
  }

  lemma Disjoint_10_12()
    ensures NamesDisjoint(TABLE_10, TABLE_12)
  {
  }

  lemma Disjoint_11_12()
    ensures NamesDisjoint(TABLE_11, TABLE_12)
  {
  }

  lemma Disjoint_0_13()
    ensures NamesDisjoint(TABLE_0, TABLE_13)
  {
  }

  lemma Disjoint_1_13()
    ensures NamesDisjoint(TABLE_1, TABLE_13)
  {
  }

  lemma Disjoint_2_13()
    ensures NamesDisjoint(TABLE_2, TABLE_13)
  {
  }

  lemma Disjoint_3_13()
    ensures NamesDisjoint(TABLE_3, TABLE_13)
  {
  }

  lemma Disjoint_4_13()
    ensures NamesDisjoint(TABLE_4, TABLE_13)
  {
  }

  lemma Disjoint_5_13()
    ensures NamesDisjoint(TABLE_5, TABLE_13)
  {
  }

  lemma Disjoint_6_13()
    ensures NamesDisjoint(TABLE_6, TABLE_13)
  {
  }

  lemma Disjoint_7_13()
    ensures NamesDisjoint(TABLE_7, TABLE_13)
  {
  }

  lemma Disjoint_8_13()
    ensures NamesDisjoint(TABLE_8, TABLE_13)
  {
  }

  lemma Disjoint_9_13()
    ensures NamesDisjoint(TABLE_9, TABLE_13)
  {
  }

  lemma Disjoint_10_13()
    ensures NamesDisjoint(TABLE_10, TABLE_13)
  {
  }

  lemma Disjoint_11_13()
    ensures NamesDisjoint(TABLE_11, TABLE_13)
  {
  }

  lemma Disjoint_12_13()
    ensures NamesDisjoint(TABLE_12, TABLE_13)
  {
  }

  /** The table has 139 entries whose names are upper-case and pairwise
      different. */
  lemma TableFacts()
    ensures |COLOR_TABLE| == 139
    ensures NamesOk(COLOR_TABLE) && NamesDistinct(COLOR_TABLE)
  {
    Block0();
    Block1();
    Disjoint_0_1();
    ConcatNamesOk(TABLE_0, TABLE_1);
    ConcatDistinct(TABLE_0, TABLE_1);
    Block2();
    Disjoint_0_2();
    Disjoint_1_2();
    ConcatDisjoint(TABLE_0, TABLE_1, TABLE_2);
    ConcatNamesOk(TABLE_0 + TABLE_1, TABLE_2);
    ConcatDistinct(TABLE_0 + TABLE_1, TABLE_2);
    Block3();
    Disjoint_0_3();
    Disjoint_1_3();
    Disjoint_2_3();
    ConcatDisjoint(TABLE_0, TABLE_1, TABLE_3);
    ConcatDisjoint(TABLE_0 + TABLE_1, TABLE_2, TABLE_3);
    ConcatNamesOk(TABLE_0 + TABLE_1 + TABLE_2, TABLE_3);
    ConcatDistinct(TABLE_0 + TABLE_1 + TABLE_2, TABLE_3);
    Block4();
    Disjoint_0_4();
    Disjoint_1_4();
    Disjoint_2_4();
    Disjoint_3_4();
    ConcatDisjoint(TABLE_0, TABLE_1, TABLE_4);
    ConcatDisjoint(TABLE_0 + TABLE_1, TABLE_2, TABLE_4);
    ConcatDisjoint(TABLE_0 + TABLE_1 + TABLE_2, TABLE_3, TABLE_4);
    ConcatNamesOk(TABLE_0 + TABLE_1 + TABLE_2 + TABLE_3, TABLE_4);
    ConcatDistinct(TABLE_0 + TABLE_1 + TABLE_2 + TABLE_3, TABLE_4);
    Block5();
    Disjoint_0_5();
    Disjoint_1_5();
    Disjoint_2_5();
    Disjoint_3_5();
    Disjoint_4_5();
    ConcatDisjoint(TABLE_0, TABLE_1, TABLE_5);
    ConcatDisjoint(TABLE_0 + TABLE_1, TABLE_2, TABLE_5);
    ConcatDisjoint(TABLE_0 + TABLE_1 + TABLE_2, TABLE_3, TABLE_5);
    ConcatDisjoint(TABLE_0 + TABLE_1 + TABLE_2 + TABLE_3, TABLE_4, TABLE_5);
    ConcatNamesOk(TABLE_0 + TABLE_1 + TABLE_2 + TABLE_3 + TABLE_4, TABLE_5);
    ConcatDistinct(TABLE_0 + TABLE_1 + TABLE_2 + TABLE_3 + TABLE_4, TABLE_5);
    Block6();
    Disjoint_0_6();
    Disjoint_1_6();
    Disjoint_2_6();
    Disjoint_3_6();
    Disjoint_4_6();
    Disjoint_5_6();
    ConcatDisjoint(TABLE_0, TABLE_1, TABLE_6);
    ConcatDisjoint(TABLE_0 + TABLE_1, TABLE_2, TABLE_6);
    ConcatDisjoint(TABLE_0 + TABLE_1 + TABLE_2, TABLE_3, TABLE_6);
    ConcatDisjoint(TABLE_0 + TABLE_1 + TABLE_2 + TABLE_3, TABLE_4, TABLE_6);
    ConcatDisjoint(TABLE_0 + TABLE_1 + TABLE_2 + TABLE_3 + TABLE_4, TABLE_5, TABLE_6);
    ConcatNamesOk(TABLE_0 + TABLE_1 + TABLE_2 + TABLE_3 + TABLE_4 + TABLE_5, TABLE_6);
    ConcatDistinct(TABLE_0 + TABLE_1 + TABLE_2 + TABLE_3 + TABLE_4 + TABLE_5, TABLE_6);
    Block7();
    Disjoint_0_7();
    Disjoint_1_7();
    Disjoint_2_7();
    Disjoint_3_7();
    Disjoint_4_7();
    Disjoint_5_7();
    Disjoint_6_7();
    ConcatDisjoint(TABLE_0, TABLE_1, TABLE_7);
    ConcatDisjoint(TABLE_0 + TABLE_1, TABLE_2, TABLE_7);
    ConcatDisjoint(TABLE_0 + TABLE_1 + TABLE_2, TABLE_3, TABLE_7);
    ConcatDisjoint(TABLE_0 + TABLE_1 + TABLE_2 + TABLE_3, TABLE_4, TABLE_7);
    ConcatDisjoint(TABLE_0 + TABLE_1 + TABLE_2 + TABLE_3 + TABLE_4, TABLE_5, TABLE_7);
    ConcatDisjoint(TABLE_0 + TABLE_1 + TABLE_2 + TABLE_3 + TABLE_4 + TABLE_5, TABLE_6, TABLE_7);
    ConcatNamesOk(TABLE_0 + TABLE_1 + TABLE_2 + TABLE_3 + TABLE_4 + TABLE_5 + TABLE_6, TABLE_7);
    ConcatDistinct(TABLE_0 + TABLE_1 + TABLE_2 + TABLE_3 + TABLE_4 + TABLE_5 + TABLE_6, TABLE_7);
    Block8();
    Disjoint_0_8();
    Disjoint_1_8();
    Disjoint_2_8();
    Disjoint_3_8();
    Disjoint_4_8();
    Disjoint_5_8();
    Disjoint_6_8();
    Disjoint_7_8();
    ConcatDisjoint(TABLE_0, TABLE_1, TABLE_8);
    ConcatDisjoint(TABLE_0 + TABLE_1, TABLE_2, TABLE_8);
    ConcatDisjoint(TABLE_0 + TABLE_1 + TABLE_2, TABLE_3, TABLE_8);
    ConcatDisjoint(TABLE_0 + TABLE_1 + TABLE_2 + TABLE_3, TABLE_4, TABLE_8);
    ConcatDisjoint(TABLE_0 + TABLE_1 + TABLE_2 + TABLE_3 + TABLE_4, TABLE_5, TABLE_8);
    ConcatDisjoint(TABLE_0 + TABLE_1 + TABLE_2 + TABLE_3 + TABLE_4 + TABLE_5, TABLE_6, TABLE_8);
    ConcatDisjoint(TABLE_0 + TABLE_1 + TABLE_2 + TABLE_3 + TABLE_4 + TABLE_5 + TABLE_6, TABLE_7, TABLE_8);
    ConcatNamesOk(TABLE_0 + TABLE_1 + TABLE_2 + TABLE_3 + TABLE_4 + TABLE_5 + TABLE_6 + TABLE_7, TABLE_8);
    ConcatDistinct(TABLE_0 + TABLE_1 + TABLE_2 + TABLE_3 + TABLE_4 + TABLE_5 + TABLE_6 + TABLE_7, TABLE_8);
    Block9();
    Disjoint_0_9();
    Disjoint_1_9();
    Disjoint_2_9();
    Disjoint_3_9();
    Disjoint_4_9();
    Disjoint_5_9();
    Disjoint_6_9();
    Disjoint_7_9();
    Disjoint_8_9();
    ConcatDisjoint(TABLE_0, TABLE_1, TABLE_9);
    ConcatDisjoint(TABLE_0 + TABLE_1, TABLE_2, TABLE_9);
    ConcatDisjoint(TABLE_0 + TABLE_1 + TABLE_2, TABLE_3, TABLE_9);
    ConcatDisjoint(TABLE_0 + TABLE_1 + TABLE_2 + TABLE_3, TABLE_4, TABLE_9);
    ConcatDisjoint(TABLE_0 + TABLE_1 + TABLE_2 + TABLE_3 + TABLE_4, TABLE_5, TABLE_9);
    ConcatDisjoint(TABLE_0 + TABLE_1 + TABLE_2 + TABLE_3 + TABLE_4 + TABLE_5, TABLE_6, TABLE_9);
    ConcatDisjoint(TABLE_0 + TABLE_1 + TABLE_2 + TABLE_3 + TABLE_4 + TABLE_5 + TABLE_6, TABLE_7, TABLE_9);
    ConcatDisjoint(TABLE_0 + TABLE_1 + TABLE_2 + TABLE_3 + TABLE_4 + TABLE_5 + TABLE_6 + TABLE_7, TABLE_8, TABLE_9);
    ConcatNamesOk(TABLE_0 + TABLE_1 + TABLE_2 + TABLE_3 + TABLE_4 + TABLE_5 + TABLE_6 + TABLE_7 + TABLE_8, TABLE_9);
    ConcatDistinct(TABLE_0 + TABLE_1 + TABLE_2 + TABLE_3 + TABLE_4 + TABLE_5 + TABLE_6 + TABLE_7 + TABLE_8, TABLE_9);
    Block10();
    Disjoint_0_10();
    Disjoint_1_10();
    Disjoint_2_10();
    Disjoint_3_10();
    Disjoint_4_10();
    Disjoint_5_10();
    Disjoint_6_10();
    Disjoint_7_10();
    Disjoint_8_10();
    Disjoint_9_10();
    ConcatDisjoint(TABLE_0, TABLE_1, TABLE_10);
    ConcatDisjoint(TABLE_0 + TABLE_1, TABLE_2, TABLE_10);
    ConcatDisjoint(TABLE_0 + TABLE_1 + TABLE_2, TABLE_3, TABLE_10);
    ConcatDisjoint(TABLE_0 + TABLE_1 + TABLE_2 + TABLE_3, TABLE_4, TABLE_10);
    ConcatDisjoint(TABLE_0 + TABLE_1 + TABLE_2 + TABLE_3 + TABLE_4, TABLE_5, TABLE_10);
    ConcatDisjoint(TABLE_0 + TABLE_1 + TABLE_2 + TABLE_3 + TABLE_4 + TABLE_5, TABLE_6, TABLE_10);
    ConcatDisjoint(TABLE_0 + TABLE_1 + TABLE_2 + TABLE_3 + TABLE_4 + TABLE_5 + TABLE_6, TABLE_7, TABLE_10);
    ConcatDisjoint(TABLE_0 + TABLE_1 + TABLE_2 + TABLE_3 + TABLE_4 + TABLE_5 + TABLE_6 + TABLE_7, TABLE_8, TABLE_10);
    ConcatDisjoint(TABLE_0 + TABLE_1 + TABLE_2 + TABLE_3 + TABLE_4 + TABLE_5 + TABLE_6 + TABLE_7 + TABLE_8, TABLE_9, TABLE_10);
    ConcatNamesOk(TABLE_0 + TABLE_1 + TABLE_2 + TABLE_3 + TABLE_4 + TABLE_5 + TABLE_6 + TABLE_7 + TABLE_8 + TABLE_9, TABLE_10);
    ConcatDistinct(TABLE_0 + TABLE_1 + TABLE_2 + TABLE_3 + TABLE_4 + TABLE_5 + TABLE_6 + TABLE_7 + TABLE_8 + TABLE_9, TABLE_10);
    Block11();
    Disjoint_0_11();
    Disjoint_1_11();
    Disjoint_2_11();
    Disjoint_3_11();
    Disjoint_4_11();
    Disjoint_5_11();
    Disjoint_6_11();
    Disjoint_7_11();
    Disjoint_8_11();
    Disjoint_9_11();
    Disjoint_10_11();
    ConcatDisjoint(TABLE_0, TABLE_1, TABLE_11);
    ConcatDisjoint(TABLE_0 + TABLE_1, TABLE_2, TABLE_11);
    ConcatDisjoint(TABLE_0 + TABLE_1 + TABLE_2, TABLE_3, TABLE_11);
    ConcatDisjoint(TABLE_0 + TABLE_1 + TABLE_2 + TABLE_3, TABLE_4, TABLE_11);
    ConcatDisjoint(TABLE_0 + TABLE_1 + TABLE_2 + TABLE_3 + TABLE_4, TABLE_5, TABLE_11);
    ConcatDisjoint(TABLE_0 + TABLE_1 + TABLE_2 + TABLE_3 + TABLE_4 + TABLE_5, TABLE_6, TABLE_11);
    ConcatDisjoint(TABLE_0 + TABLE_1 + TABLE_2 + TABLE_3 + TABLE_4 + TABLE_5 + TABLE_6, TABLE_7, TABLE_11);
    ConcatDisjoint(TABLE_0 + TABLE_1 + TABLE_2 + TABLE_3 + TABLE_4 + TABLE_5 + TABLE_6 + TABLE_7, TABLE_8, TABLE_11);
    ConcatDisjoint(TABLE_0 + TABLE_1 + TABLE_2 + TABLE_3 + TABLE_4 + TABLE_5 + TABLE_6 + TABLE_7 + TABLE_8, TABLE_9, TABLE_11);
    ConcatDisjoint(TABLE_0 + TABLE_1 + TABLE_2 + TABLE_3 + TABLE_4 + TABLE_5 + TABLE_6 + TABLE_7 + TABLE_8 + TABLE_9, TABLE_10, TABLE_11);
    ConcatNamesOk(TABLE_0 + TABLE_1 + TABLE_2 + TABLE_3 + TABLE_4 + TABLE_5 + TABLE_6 + TABLE_7 + TABLE_8 + TABLE_9 + TABLE_10, TABLE_11);
    ConcatDistinct(TABLE_0 + TABLE_1 + TABLE_2 + TABLE_3 + TABLE_4 + TABLE_5 + TABLE_6 + TABLE_7 + TABLE_8 + TABLE_9 + TABLE_10, TABLE_11);
    Block12();
    Disjoint_0_12();
    Disjoint_1_12();
    Disjoint_2_12();
    Disjoint_3_12();
    Disjoint_4_12();
    Disjoint_5_12();
    Disjoint_6_12();
    Disjoint_7_12();
    Disjoint_8_12();
    Disjoint_9_12();
    Disjoint_10_12();
    Disjoint_11_12();
    ConcatDisjoint(TABLE_0, TABLE_1, TABLE_12);
    ConcatDisjoint(TABLE_0 + TABLE_1, TABLE_2, TABLE_12);
    ConcatDisjoint(TABLE_0 + TABLE_1 + TABLE_2, TABLE_3, TABLE_12);
    ConcatDisjoint(TABLE_0 + TABLE_1 + TABLE_2 + TABLE_3, TABLE_4, TABLE_12);
    ConcatDisjoint(TABLE_0 + TABLE_1 + TABLE_2 + TABLE_3 + TABLE_4, TABLE_5, TABLE_12);
    ConcatDisjoint(TABLE_0 + TABLE_1 + TABLE_2 + TABLE_3 + TABLE_4 + TABLE_5, TABLE_6, TABLE_12);
    ConcatDisjoint(TABLE_0 + TABLE_1 + TABLE_2 + TABLE_3 + TABLE_4 + TABLE_5 + TABLE_6, TABLE_7, TABLE_12);
    ConcatDisjoint(TABLE_0 + TABLE_1 + TABLE_2 + TABLE_3 + TABLE_4 + TABLE_5 + TABLE_6 + TABLE_7, TABLE_8, TABLE_12);
    ConcatDisjoint(TABLE_0 + TABLE_1 + TABLE_2 + TABLE_3 + TABLE_4 + TABLE_5 + TABLE_6 + TABLE_7 + TABLE_8, TABLE_9, TABLE_12);
    ConcatDisjoint(TABLE_0 + TABLE_1 + TABLE_2 + TABLE_3 + TABLE_4 + TABLE_5 + TABLE_6 + TABLE_7 + TABLE_8 + TABLE_9, TABLE_10, TABLE_12);
    ConcatDisjoint(TABLE_0 + TABLE_1 + TABLE_2 + TABLE_3 + TABLE_4 + TABLE_5 + TABLE_6 + TABLE_7 + TABLE_8 + TABLE_9 + TABLE_10, TABLE_11, TABLE_12);
    ConcatNamesOk(TABLE_0 + TABLE_1 + TABLE_2 + TABLE_3 + TABLE_4 + TABLE_5 + TABLE_6 + TABLE_7 + TABLE_8 + TABLE_9 + TABLE_10 + TABLE_11, TABLE_12);
    ConcatDistinct(TABLE_0 + TABLE_1 + TABLE_2 + TABLE_3 + TABLE_4 + TABLE_5 + TABLE_6 + TABLE_7 + TABLE_8 + TABLE_9 + TABLE_10 + TABLE_11, TABLE_12);
    Block13();
    Disjoint_0_13();
    Disjoint_1_13();
    Disjoint_2_13();
    Disjoint_3_13();
    Disjoint_4_13();
    Disjoint_5_13();
    Disjoint_6_13();
    Disjoint_7_13();
    Disjoint_8_13();
    Disjoint_9_13();
    Disjoint_10_13();
    Disjoint_11_13();
    Disjoint_12_13();
    ConcatDisjoint(TABLE_0, TABLE_1, TABLE_13);
    ConcatDisjoint(TABLE_0 + TABLE_1, TABLE_2, TABLE_13);
    ConcatDisjoint(TABLE_0 + TABLE_1 + TABLE_2, TABLE_3, TABLE_13);
    ConcatDisjoint(TABLE_0 + TABLE_1 + TABLE_2 + TABLE_3, TABLE_4, TABLE_13);
    ConcatDisjoint(TABLE_0 + TABLE_1 + TABLE_2 + TABLE_3 + TABLE_4, TABLE_5, TABLE_13);
    ConcatDisjoint(TABLE_0 + TABLE_1 + TABLE_2 + TABLE_3 + TABLE_4 + TABLE_5, TABLE_6, TABLE_13);
    ConcatDisjoint(TABLE_0 + TABLE_1 + TABLE_2 + TABLE_3 + TABLE_4 + TABLE_5 + TABLE_6, TABLE_7, TABLE_13);
    ConcatDisjoint(TABLE_0 + TABLE_1 + TABLE_2 + TABLE_3 + TABLE_4 + TABLE_5 + TABLE_6 + TABLE_7, TABLE_8, TABLE_13);
    ConcatDisjoint(TABLE_0 + TABLE_1 + TABLE_2 + TABLE_3 + TABLE_4 + TABLE_5 + TABLE_6 + TABLE_7 + TABLE_8, TABLE_9, TABLE_13);
    ConcatDisjoint(TABLE_0 + TABLE_1 + TABLE_2 + TABLE_3 + TABLE_4 + TABLE_5 + TABLE_6 + TABLE_7 + TABLE_8 + TABLE_9, TABLE_10, TABLE_13);
    ConcatDisjoint(TABLE_0 + TABLE_1 + TABLE_2 + TABLE_3 + TABLE_4 + TABLE_5 + TABLE_6 + TABLE_7 + TABLE_8 + TABLE_9 + TABLE_10, TABLE_11, TABLE_13);
    ConcatDisjoint(TABLE_0 + TABLE_1 + TABLE_2 + TABLE_3 + TABLE_4 + TABLE_5 + TABLE_6 + TABLE_7 + TABLE_8 + TABLE_9 + TABLE_10 + TABLE_11, TABLE_12, TABLE_13);
    ConcatNamesOk(TABLE_0 + TABLE_1 + TABLE_2 + TABLE_3 + TABLE_4 + TABLE_5 + TABLE_6 + TABLE_7 + TABLE_8 + TABLE_9 + TABLE_10 + TABLE_11 + TABLE_12, TABLE_13);
    ConcatDistinct(TABLE_0 + TABLE_1 + TABLE_2 + TABLE_3 + TABLE_4 + TABLE_5 + TABLE_6 + TABLE_7 + TABLE_8 + TABLE_9 + TABLE_10 + TABLE_11 + TABLE_12, TABLE_13);
  }

  lemma UpperOfTableName(s: string)
    requires TableName(s)
    ensures ToAsciiUpper(s) == s
  {
  }

  /** Every table name finds its own colour. */
  lemma FromNameOfTableName(i: nat)
    requires i < |COLOR_TABLE|
    ensures FromName(COLOR_TABLE[i].0) == Some(COLOR_TABLE[i].1)
  {
    TableFacts();
    var n := COLOR_TABLE[i].0;
    UpperOfTableName(n);
    var r := Find(COLOR_TABLE, n);
    var k :| 0 <= k < |COLOR_TABLE| && COLOR_TABLE[k] == (n, r.value)
             && forall j :: 0 <= j < k ==> COLOR_TABLE[j].0 != n;
    assert k == i;
  }

  /** `from_name` ignores ASCII case. */
  lemma FromNameCaseInsensitive(name: string)
    ensures FromName(name) == FromName(ToAsciiUpper(name))
    ensures FromName(name) == FromName(ToAsciiLower(name))
  {
    ToAsciiUpperIdempotent(name);
    assert ToAsciiUpper(ToAsciiLower(name)) == ToAsciiUpper(name);
  }

  /** The empty name and names outside the table find nothing. */
  lemma FromNameUnknown()
    ensures FromName("") == None
    ensures FromName("Gren") == None
    ensures FromName("not_a_color") == None
  {
    TableFacts();
    assert ToAsciiUpper("Gren") == "GREN";
    assert ToAsciiUpper("not_a_color") == "NOT_A_COLOR";
    Absent("GREN");
    Absent("NOT_A_COLOR");
  }

  lemma AbsentLow(n: string)
    requires n == "GREN" || n == "NOT_A_COLOR"
    ensures forall i :: 0 <= i < |TABLE_0 + TABLE_1 + TABLE_2 + TABLE_3 + TABLE_4 + TABLE_5 + TABLE_6| ==> (TABLE_0 + TABLE_1 + TABLE_2 + TABLE_3 + TABLE_4 + TABLE_5 + TABLE_6)[i].0 != n
  {
    assert forall i :: 0 <= i < |TABLE_0| ==> TABLE_0[i].0 != n;
    assert forall i :: 0 <= i < |TABLE_1| ==> TABLE_1[i].0 != n;
    NotInConcat(TABLE_0, TABLE_1, n);
    assert forall i :: 0 <= i < |TABLE_2| ==> TABLE_2[i].0 != n;
    NotInConcat(TABLE_0 + TABLE_1, TABLE_2, n);
    assert forall i :: 0 <= i < |TABLE_3| ==> TABLE_3[i].0 != n;
    NotInConcat(TABLE_0 + TABLE_1 + TABLE_2, TABLE_3, n);
    assert forall i :: 0 <= i < |TABLE_4| ==> TABLE_4[i].0 != n;
    NotInConcat(TABLE_0 + TABLE_1 + TABLE_2 + TABLE_3, TABLE_4, n);
    assert forall i :: 0 <= i < |TABLE_5| ==> TABLE_5[i].0 != n;
    NotInConcat(TABLE_0 + TABLE_1 + TABLE_2 + TABLE_3 + TABLE_4, TABLE_5, n);
    assert forall i :: 0 <= i < |TABLE_6| ==> TABLE_6[i].0 != n;
    NotInConcat(TABLE_0 + TABLE_1 + TABLE_2 + TABLE_3 + TABLE_4 + TABLE_5, TABLE_6, n);
  }

  lemma Absent(n: string)
    requires n == "GREN" || n == "NOT_A_COLOR"
    ensures forall i :: 0 <= i < |COLOR_TABLE| ==> COLOR_TABLE[i].0 != n
  {
    AbsentLow(n);
    assert forall i :: 0 <= i < |TABLE_7| ==> TABLE_7[i].0 != n;
    NotInConcat(TABLE_0 + TABLE_1 + TABLE_2 + TABLE_3 + TABLE_4 + TABLE_5 + TABLE_6, TABLE_7, n);
    assert forall i :: 0 <= i < |TABLE_8| ==> TABLE_8[i].0 != n;
    NotInConcat(TABLE_0 + TABLE_1 + TABLE_2 + TABLE_3 + TABLE_4 + TABLE_5 + TABLE_6 + TABLE_7, TABLE_8, n);
    assert forall i :: 0 <= i < |TABLE_9| ==> TABLE_9[i].0 != n;
    NotInConcat(TABLE_0 + TABLE_1 + TABLE_2 + TABLE_3 + TABLE_4 + TABLE_5 + TABLE_6 + TABLE_7 + TABLE_8, TABLE_9, n);
    assert forall i :: 0 <= i < |TABLE_10| ==> TABLE_10[i].0 != n;
    NotInConcat(TABLE_0 + TABLE_1 + TABLE_2 + TABLE_3 + TABLE_4 + TABLE_5 + TABLE_6 + TABLE_7 + TABLE_8 + TABLE_9, TABLE_10, n);
    assert forall i :: 0 <= i < |TABLE_11| ==> TABLE_11[i].0 != n;
    NotInConcat(TABLE_0 + TABLE_1 + TABLE_2 + TABLE_3 + TABLE_4 + TABLE_5 + TABLE_6 + TABLE_7 + TABLE_8 + TABLE_9 + TABLE_10, TABLE_11, n);
    assert forall i :: 0 <= i < |TABLE_12| ==> TABLE_12[i].0 != n;
    NotInConcat(TABLE_0 + TABLE_1 + TABLE_2 + TABLE_3 + TABLE_4 + TABLE_5 + TABLE_6 + TABLE_7 + TABLE_8 + TABLE_9 + TABLE_10 + TABLE_11, TABLE_12, n);
    assert forall i :: 0 <= i < |TABLE_13| ==> TABLE_13[i].0 != n;
    NotInConcat(TABLE_0 + TABLE_1 + TABLE_2 + TABLE_3 + TABLE_4 + TABLE_5 + TABLE_6 + TABLE_7 + TABLE_8 + TABLE_9 + TABLE_10 + TABLE_11 + TABLE_12, TABLE_13, n);
  }

  lemma NotInConcat(a: seq<(string, Rgb)>, b: seq<(string, Rgb)>, n: string)
    requires forall i :: 0 <= i < |a| ==> a[i].0 != n
    requires forall i :: 0 <= i < |b| ==> b[i].0 != n
    ensures forall i :: 0 <= i < |a + b| ==> (a + b)[i].0 != n
  {
    forall i | 0 <= i < |a + b| ensures (a + b)[i].0 != n {
      if i < |a| { assert (a + b)[i] == a[i]; } else { assert (a + b)[i] == b[i - |a|]; }
    }
  }

}

/** The lookups beside the colour table: exact and mixed-case names. */
module ColorLookups {
  import opened Wrappers
  import opened Strings
  import opened Colors

  lemma FromNameBlue()
    ensures FromName("BLUE") == Some(BLUE) && FromName("blue") == Some(BLUE) && FromName("Blue") == Some(BLUE)
  {
    EntryBlue();
    SpellingBlue();
    FromNameCaseInsensitive("blue");
    FromNameCaseInsensitive("Blue");
  }

  lemma EntryBlue()
    ensures FromName("BLUE") == Some(BLUE)
  {
    assert COLOR_TABLE[68] == ("BLUE", BLUE);
    FromNameOfTableName(68);
  }

  lemma SpellingBlue()
    ensures ToAsciiUpper("blue") == "BLUE" && ToAsciiUpper("Blue") == "BLUE"
  {
  }

  lemma FromNameRed()
    ensures FromName("RED") == Some(RED) && FromName("red") == Some(RED)
  {
    EntryRed();
    SpellingRed();
    FromNameCaseInsensitive("red");
  }

  lemma EntryRed()
    ensures FromName("RED") == Some(RED)
  {
    assert COLOR_TABLE[5] == ("RED", RED);
    FromNameOfTableName(5);
  }

  lemma SpellingRed()
    ensures ToAsciiUpper("red") == "RED"
  {
  }

  lemma FromNameDarkRed()
    ensures FromName("DARK_RED") == Some(DARK_RED) && FromName("dark_red") == Some(DARK_RED) && FromName("Dark_Red") == Some(DARK_RED)
  {
    EntryDarkRed();
    SpellingDarkRed();
    FromNameCaseInsensitive("dark_red");
    FromNameCaseInsensitive("Dark_Red");
  }

  lemma EntryDarkRed()
    ensures FromName("DARK_RED") == Some(DARK_RED)
  {
    assert COLOR_TABLE[1] == ("DARK_RED", DARK_RED);
    FromNameOfTableName(1);
  }

  lemma SpellingDarkRed()
    ensures ToAsciiUpper("dark_red") == "DARK_RED" && ToAsciiUpper("Dark_Red") == "DARK_RED"
  {
  }

}
