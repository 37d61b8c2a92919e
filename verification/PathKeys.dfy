/** Paths into nested data: attribute names and list indices. */
module Paths {
  datatype Elem<+N> = Name(name: N) | Index(index: nat)

  type Path<+N> = seq<Elem<N>>
}

/** The dotted keys under which update metadata and repeated counts are filed. */
module PathKeys {
  import opened Paths
  import opened Text

  /** `str(part)`. */
  function Part(e: Elem<string>): string {
    match e
    case Name(n) => n
    case Index(i) => Decimal(i)
  }

  /** `".".join(str(part) for part in path)`. */
  function PathKey(path: Path<string>): string {
    if path == [] then ""
    else if |path| == 1 then Part(path[0])
    else Part(path[0]) + "." + PathKey(path[1..])
  }

  /** A path with its attribute names spelt out. */
  function Rendered<N>(path: Path<N>, text: N -> string): (r: Path<string>)
    ensures |r| == |path|
  {
    seq(|path|, i requires 0 <= i < |path| =>
      match path[i]
      case Name(n) => Name(text(n))
      case Index(k) => Index(k))
  }

  predicate Digit(c: char) {
    '0' <= c <= '9'
  }

  /** An attribute name: it has no dot and does not start with a digit. */
  predicate Identifier(s: string) {
    s != "" && !Digit(s[0]) && '.' !in s
  }

  predicate WellNamed(path: Path<string>) {
    path != [] && forall e | e in path :: e.Name? ==> Identifier(e.name)
  }

  // ----- decimal numerals -----

  function Number(s: string): int {
    if s == "" then 0 else 10 * Number(s[..|s| - 1]) + (s[|s| - 1] as int - 48)
  }

  lemma {:induction false} DecimalReads(n: nat)
    ensures Decimal(n) != "" && (forall c | c in Decimal(n) :: Digit(c)) && Number(Decimal(n)) == n
  {
    var last := (n % 10 + 48) as char;
    if n < 10 {
      assert [last][..0] == "";
      assert Number([last]) == n;
    } else {
      DecimalReads(n / 10);
      var s := Decimal(n);
      assert s[..|s| - 1] == Decimal(n / 10);
    }
  }

  lemma PartsDiffer(a: Elem<string>, b: Elem<string>)
    requires (a.Name? ==> Identifier(a.name)) && (b.Name? ==> Identifier(b.name))
    ensures '.' !in Part(a)
    ensures Part(a) == Part(b) ==> a == b
  {
    if a.Index? {
      DecimalReads(a.index);
    }
    if b.Index? {
      DecimalReads(b.index);
    }
    assert Part(a) != "" && Part(b) != "";
    assert Digit(Part(a)[0]) == a.Index? && Digit(Part(b)[0]) == b.Index?;
  }

  // ----- joined paths -----

  /** Where the first dot is decides the first part. */
  lemma FirstDot(x: string, s: string, y: string, t: string)
    requires '.' !in x && '.' !in y && x + "." + s == y + "." + t
    ensures x == y && s == t
  {
    var u := x + "." + s;
    assert u[|x|] == '.' && u[|y|] == '.';
    assert forall i | 0 <= i < |x| :: u[i] == x[i];
    assert forall i | 0 <= i < |y| :: u[i] == y[i];
    assert u[..|x|] == x && u[..|y|] == y && u[|x| + 1..] == s && u[|y| + 1..] == t;
  }

  /** No two paths share a key. */
  lemma {:induction false} PathKeyInjective(a: Path<string>, b: Path<string>)
    requires WellNamed(a) && WellNamed(b) && PathKey(a) == PathKey(b)
    ensures a == b
  {
    PartsDiffer(a[0], b[0]);
    PartsDiffer(b[0], a[0]);
    var key := PathKey(a);
    assert |b| != 1 ==> key[|Part(b[0])|] == '.';
    assert |a| != 1 ==> key[|Part(a[0])|] == '.';
    if |a| != 1 && |b| != 1 {
      FirstDot(Part(a[0]), PathKey(a[1..]), Part(b[0]), PathKey(b[1..]));
      PathKeyInjective(a[1..], b[1..]);
      assert a == [a[0]] + a[1..] && b == [b[0]] + b[1..];
    }
  }

  /** A path of two or more parts has a dotted key, whatever the parts are called. */
  lemma DottedKey(path: Path<string>)
    requires 2 <= |path|
    ensures '.' in PathKey(path)
  {
    assert PathKey(path)[|Part(path[0])|] == '.';
  }
}
