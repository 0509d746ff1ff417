/**
 * The pure rules of the explorer screen: which way the character faces,
 * which of the eight sprites shows it, how pressed keys become a
 * movement, and the list operations behind the pressed-key list.
 */
module ExplorerRules {
  import opened Constants
  import opened MapText

  function Abs(r: real): real
  {
    if r < 0.0 then -r else r
  }

  /** The component of a movement along direction `d`. */
  function Along(d: Dir, x: real, y: real): real
  {
    match d
    case Right => x
    case Left => -x
    case Top => y
    case Bottom => -y
  }

  /** The component of a movement across direction `d`. */
  function Across(d: Dir, x: real, y: real): real
  {
    match d
    case Right => y
    case Left => y
    case Top => x
    case Bottom => x
  }

  /**
   * The four-way facing of a movement: the axis with the larger
   * component, ties and the null movement going vertical (and down).
   * The facing always points along the movement, on its dominant axis.
   */
  function Facing(x: real, y: real): (d: Dir)
    ensures (x, y) != (0.0, 0.0) ==> Along(d, x, y) > 0.0 && Along(d, x, y) >= Abs(Across(d, x, y))
    ensures Abs(x) == Abs(y) ==> d == Top || d == Bottom
    ensures (x, y) == (0.0, 0.0) ==> d == Bottom
  {
    if Abs(x) > Abs(y) then (if x > 0.0 then Right else Left)
    else (if y > 0.0 then Top else Bottom)
  }

  /** Which side of the sprite a display orientation shows: (-1 left / 0 / 1 right, -1 bottom / 0 / 1 top). */
  function Heading(s: string): (int, int)
  {
    if s == "left" then (-1, 0) else if s == "right" then (1, 0)
    else if s == "top" then (0, 1) else if s == "bottom" then (0, -1)
    else if s == "left_bottom" then (-1, -1) else if s == "right_bottom" then (1, -1)
    else if s == "left_top" then (-1, 1) else if s == "right_top" then (1, 1)
    else (0, 0)
  }

  /** The horizontal part of the sprite: components up to 0.25 count as none. */
  function HorizontalPart(x: real): int
  {
    if Abs(x) > 0.25 then (if x < 0.0 then -1 else 1) else 0
  }

  /** The vertical part of the sprite; with no part at all, the sprite faces down. */
  function VerticalPart(x: real, y: real): int
  {
    if Abs(y) > 0.25 then (if y > 0.0 then 1 else -1)
    else if HorizontalPart(x) == 0 then -1 else 0
  }

  /**
   * `update_display_orientation`: builds `left_`/`right_` then `top`/`bottom`,
   * dropping the underscore when there is no vertical part.
   */
  function DisplayOrientation(x: real, y: real): string
  {
    var horizontal := if Abs(x) > 0.25 then (if x < 0.0 then "left_" else "right_") else "";
    if Abs(y) > 0.25 then horizontal + (if y > 0.0 then "top" else "bottom")
    else if horizontal != "" then RemoveChar(horizontal, '_')
    else "bottom"
  }

  /**
   * The display orientation is always a sprite of the eight-way table, the
   * one heading along the movement's components larger than 0.25.
   */
  lemma DisplayOrientationSprite(x: real, y: real)
    ensures DisplayOrientation(x, y) in DICT_DISPLAY_ORIENTATIONS
    ensures Heading(DisplayOrientation(x, y)) == (HorizontalPart(x), VerticalPart(x, y))
  {
    var s := DisplayOrientation(x, y);
    if Abs(y) > 0.25 {
      DisplayConcatenations();
      if Abs(x) > 0.25 {
        if x < 0.0 {
          assert s == if y > 0.0 then "left_top" else "left_bottom";
        } else {
          assert s == if y > 0.0 then "right_top" else "right_bottom";
        }
      } else {
        assert s == if y > 0.0 then "top" else "bottom";
      }
    } else if Abs(x) > 0.25 {
      DisplayTrims();
      assert s == if x < 0.0 then "left" else "right";
    } else {
      assert s == "bottom";
    }
  }

  lemma DisplayConcatenations()
    ensures "" + "top" == "top" && "" + "bottom" == "bottom"
    ensures "left_" + "top" == "left_top" && "left_" + "bottom" == "left_bottom"
    ensures "right_" + "top" == "right_top" && "right_" + "bottom" == "right_bottom"
  {
  }

  lemma DisplayTrims()
    ensures RemoveChar("left_", '_') == "left" && RemoveChar("right_", '_') == "right"
  {
    assert "left" + "_" == "left_";
    assert "right" + "_" == "right_";
    TrimLast("left");
    TrimLast("right");
  }

  /** Dropping the underscores of a word ending in its only underscore drops that one. */
  lemma TrimLast(w: string)
    requires '_' !in w
    ensures RemoveChar(w + "_", '_') == w
  {
    RemoveCharAppend(w, "_", '_');
    RemoveAbsentChar(w, '_');
    assert RemoveChar("_", '_') == [];
  }

  /** The eight display orientations have eight distinct headings. */
  lemma HeadingInjective(s: string, t: string)
    requires s in DICT_DISPLAY_ORIENTATIONS && t in DICT_DISPLAY_ORIENTATIONS
    ensures Heading(s) == Heading(t) ==> s == t
  {
  }

  /** `str.lower` on the ASCII letters. */
  function LowerChar(c: char): (r: char)
    ensures 'A' <= c <= 'Z' ==> 'a' <= r <= 'z' && r as int - c as int == 'a' as int - 'A' as int
    ensures !('A' <= c <= 'Z') ==> r == c
  {
    if 'A' <= c <= 'Z' then (c as int - 'A' as int + 'a' as int) as char else c
  }

  function Lower(s: string): (r: string)
    ensures |r| == |s| && forall i | 0 <= i < |s| :: r[i] == LowerChar(s[i])
  {
    if s == [] then [] else [LowerChar(s[0])] + Lower(s[1..])
  }

  /**
   * The movement names hit by one key, in the order of the key table:
   * every name whose bound key equals the lower-cased key.
   */
  function KeyHits(key: string, names: seq<string>, keys: map<string, string>): (hits: seq<string>)
    requires forall n | n in names :: n in keys
  {
    if names == [] then []
    else
      var last := names[|names| - 1];
      KeyHits(key, names[..|names| - 1], keys) + (if Lower(key) == keys[last] then [last] else [])
  }

  /** A key hits exactly the names of the table bound to it once lower-cased, each at most as often as it is listed. */
  lemma {:induction false} KeyHitsNames(key: string, names: seq<string>, keys: map<string, string>)
    requires forall n | n in names :: n in keys
    ensures var hits := KeyHits(key, names, keys);
      && |hits| <= |names|
      && forall n :: n in hits <==> n in names && Lower(key) == keys[n]
  {
    if names != [] {
      KeyHitsNames(key, names[..|names| - 1], keys);
      assert names == names[..|names| - 1] + [names[|names| - 1]];
    }
  }

  /** The movement names hit by the pressed keys, pressed key by pressed key. */
  function Hits(pressed: seq<string>, names: seq<string>, keys: map<string, string>): (hits: seq<string>)
    requires forall n | n in names :: n in keys
  {
    if pressed == [] then []
    else Hits(pressed[..|pressed| - 1], names, keys) + KeyHits(pressed[|pressed| - 1], names, keys)
  }

  /** A name is hit exactly when it is in the key table and some pressed key, lower-cased, is the key bound to it. */
  lemma {:induction false} HitsNames(pressed: seq<string>, names: seq<string>, keys: map<string, string>, n: string)
    requires forall n | n in names :: n in keys
    ensures n in Hits(pressed, names, keys) <==> n in names && exists k | k in pressed :: Lower(k) == keys[n]
  {
    if pressed != [] {
      var init, last := pressed[..|pressed| - 1], pressed[|pressed| - 1];
      HitsNames(init, names, keys, n);
      KeyHitsNames(last, names, keys);
      if n in names && Lower(last) == keys[n] {
        assert last in pressed;
      }
      if n in names && exists k | k in pressed :: Lower(k) == keys[n] {
        var k :| k in pressed && Lower(k) == keys[n];
        if k != last {
          assert pressed == init + [last];
          assert k in init;
        }
      }
    }
  }

  /** One axis of the movement: +1 or -1 for the last hit of its two names, 0 if neither was hit. */
  function Axis(hits: seq<string>, positive: string, negative: string): (a: int)
    ensures -1 <= a <= 1
  {
    if hits == [] then 0
    else if hits[|hits| - 1] == positive then 1
    else if hits[|hits| - 1] == negative then -1
    else Axis(hits[..|hits| - 1], positive, negative)
  }

  /** An axis moves exactly when one of its names was hit, in the direction of a name that was hit. */
  lemma {:induction false} AxisHit(hits: seq<string>, positive: string, negative: string)
    requires positive != negative
    ensures Axis(hits, positive, negative) != 0 <==> positive in hits || negative in hits
    ensures Axis(hits, positive, negative) == 1 ==> positive in hits
    ensures Axis(hits, positive, negative) == -1 ==> negative in hits
  {
    if hits != [] {
      var init := hits[..|hits| - 1];
      assert hits == init + [hits[|hits| - 1]];
      AxisHit(init, positive, negative);
    }
  }

  /** A later hit overrides an earlier one: the axis is that of the last relevant hit. */
  lemma AxisOfAppend(hits: seq<string>, more: seq<string>, positive: string, negative: string)
    requires positive in more || negative in more
    ensures Axis(hits + more, positive, negative) == Axis(more, positive, negative)
    decreases |more|
  {
    var all := hits + more;
    var last := more[|more| - 1];
    assert all[|all| - 1] == last;
    if last != positive && last != negative {
      var init := more[..|more| - 1];
      assert all[..|all| - 1] == hits + init;
      AxisOfAppend(hits, init, positive, negative);
    }
  }

  /** The diagonal movement is scaled by `1 / SQUARE_TWO`; a straight one is kept. */
  function Normalise(x: int, y: int): (m: (real, real))
    requires -1 <= x <= 1 && -1 <= y <= 1
    ensures (m.0 > 0.0 <==> x > 0) && (m.0 < 0.0 <==> x < 0)
    ensures (m.1 > 0.0 <==> y > 0) && (m.1 < 0.0 <==> y < 0)
    ensures x == 0 || y == 0 ==> m == (x as real, y as real)
    ensures x != 0 && y != 0 ==> Abs(m.0) == 1.0 / SQUARE_TWO && Abs(m.1) == 1.0 / SQUARE_TWO
  {
    if x != 0 && y != 0 then (x as real / SQUARE_TWO, y as real / SQUARE_TWO)
    else (x as real, y as real)
  }

  predicate NoDuplicates<T(==)>(s: seq<T>)
  {
    forall i, j | 0 <= i < j < |s| :: s[i] != s[j]
  }

  /** `list.remove`: drops the first occurrence of `x`. */
  function RemoveFirst<T(==)>(s: seq<T>, x: T): (r: seq<T>)
    ensures x in s ==> |r| == |s| - 1 && multiset(r) == multiset(s) - multiset{x}
    ensures x !in s ==> r == s
  {
    if s == [] then []
    else
      assert s == [s[0]] + s[1..];
      if s[0] == x then s[1..] else [s[0]] + RemoveFirst(s[1..], x)
  }

  /** On a list without duplicates, removing `x` removes it entirely and keeps every other element. */
  lemma RemoveFirstNoDuplicates<T>(s: seq<T>, x: T)
    requires NoDuplicates(s)
    ensures NoDuplicates(RemoveFirst(s, x))
    ensures x !in RemoveFirst(s, x)
    ensures forall y | y != x :: y in RemoveFirst(s, x) <==> y in s
  {
    var r := RemoveFirst(s, x);
    if x in s {
      var ms := multiset(s) - multiset{x};
      assert multiset(r) == ms;
      forall y | y != x
        ensures y in r <==> y in s
      {
        assert y in r <==> y in multiset(r);
        assert y in s <==> y in multiset(s);
      }
      NoDuplicatesCount(s, x);
      assert multiset(s)[x] == 1;
      assert x !in multiset(r);
      forall i, j | 0 <= i < j < |r|
        ensures r[i] != r[j]
      {
        NoDuplicatesCount(s, r[i]);
        if r[i] == r[j] {
          DuplicateCount(r, i, j);
        }
      }
    }
  }

  /** Without duplicates, an element occurs once. */
  lemma {:induction false} NoDuplicatesCount<T>(s: seq<T>, x: T)
    requires NoDuplicates(s)
    ensures multiset(s)[x] == if x in s then 1 else 0
  {
    if s != [] {
      assert s == [s[0]] + s[1..];
      assert NoDuplicates(s[1..]) by {
        forall i, j | 0 <= i < j < |s[1..]|
          ensures s[1..][i] != s[1..][j]
        {
          assert s[1..][i] == s[i + 1] && s[1..][j] == s[j + 1];
        }
      }
      NoDuplicatesCount(s[1..], x);
      if s[0] == x {
        assert x !in s[1..];
      }
    }
  }

  /** Two equal elements make an element occur at least twice. */
  lemma DuplicateCount<T>(s: seq<T>, i: int, j: int)
    requires 0 <= i < j < |s| && s[i] == s[j]
    ensures multiset(s)[s[i]] >= 2
  {
    assert s == s[..j] + [s[j]] + s[j + 1..];
    assert s[i] in s[..j];
    assert multiset(s) == multiset(s[..j]) + multiset{s[j]} + multiset(s[j + 1..]);
  }
}
