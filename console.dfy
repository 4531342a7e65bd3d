/** The terminal colour functions (`console.Green`, `console.Red`, ...).
    Their package is not part of this model; a colour is modelled as an
    opaque tag wrapper: an escape sequence in front of the text and a reset
    sequence after it. Neither sequence holds white space or a newline. */
module Console {

  import opened Errors
  import opened Strings

  datatype Colour = Plain | Red | Green | Blue | Yellow | Grey

  const Esc: char := '\U{1B}'

  function Code(c: Colour): string
  {
    match c
    case Plain => "0"
    case Red => "31"
    case Green => "32"
    case Yellow => "33"
    case Blue => "34"
    case Grey => "90"
  }

  /** Wraps `s` in colour `c`. */
  function Paint(c: Colour, s: string): (r: string)
    ensures |r| > 0 && r[0] == Esc && !IsSpace(Esc)
    ensures !IsSpace(r[|r| - 1])
    ensures '\n' !in s ==> '\n' !in r
  {
    [Esc] + "[" + Code(c) + "m" + s + [Esc] + "[0m"
  }

  predicate IsPaintedWith(r: string, c: Colour)
  {
    |r| >= |Code(c)| + 7
    && r[..|Code(c)| + 3] == [Esc] + "[" + Code(c) + "m"
    && r[|r| - 4..] == [Esc] + "[0m"
  }

  /** The colour and the text of a painted string, trying the colours in
      the order given. */
  function UnpaintWith(r: string, colours: seq<Colour>): Option<(Colour, string)>
  {
    if colours == [] then None
    else if IsPaintedWith(r, colours[0]) then Some((colours[0], r[|Code(colours[0])| + 3..|r| - 4]))
    else UnpaintWith(r, colours[1..])
  }

  /** The colour and the text can be read back from a painted string. */
  function Unpaint(r: string): Option<(Colour, string)>
  {
    UnpaintWith(r, [Plain, Red, Green, Blue, Yellow, Grey])
  }

  /** A painted string carries the tag of its own colour and of no other. */
  lemma PaintedWithOnly(c: Colour, s: string, c': Colour)
    ensures IsPaintedWith(Paint(c, s), c') <==> c' == c
  {
    var r := Paint(c, s);
    if IsPaintedWith(r, c') {
      assert r[2] == Code(c')[0] && r[2] == Code(c)[0];
      assert r[3] == (Code(c') + "m")[1] && r[3] == (Code(c) + "m")[1];
    }
  }

  lemma {:induction false} UnpaintWithFinds(r: string, colours: seq<Colour>, c: Colour)
    requires c in colours
    requires forall c' :: IsPaintedWith(r, c') <==> c' == c
    requires IsPaintedWith(r, c)
    ensures UnpaintWith(r, colours) == Some((c, r[|Code(c)| + 3..|r| - 4]))
  {
    if colours[0] != c {
      UnpaintWithFinds(r, colours[1..], c);
    }
  }

  /** Painting loses neither the colour nor the text. */
  lemma UnpaintPaint(c: Colour, s: string)
    ensures Unpaint(Paint(c, s)) == Some((c, s))
  {
    var r := Paint(c, s);
    forall c' ensures IsPaintedWith(r, c') <==> c' == c {
      PaintedWithOnly(c, s, c');
    }
    UnpaintWithFinds(r, [Plain, Red, Green, Blue, Yellow, Grey], c);
    assert r[|Code(c)| + 3..|r| - 4] == s;
  }
}
