/** The migration catalog of cmd/migrate/engine/catalog.go: file names in, sorted migrations out. */
module Catalog {
  import opened Wrappers

  datatype Migration = Migration(version: nat, name: string, path: string)

  datatype CatalogError =
    | InvalidFilename(base: string)
    | DuplicateVersion(version: nat, previous: string, name: string)

  predicate IsDigit(c: char) {
    '0' <= c <= '9'
  }

  /** The file name pattern: three digits, an underscore, something on one line, ".sql". */
  predicate WellNamed(base: string) {
    && 9 <= |base|
    && IsDigit(base[0]) && IsDigit(base[1]) && IsDigit(base[2])
    && base[3] == '_'
    && base[|base| - 4..] == ".sql"
    && '\n' !in base[4..|base| - 4]
  }

  function Digit(c: char): nat
    requires IsDigit(c)
  {
    c as int - '0' as int
  }

  function Version(base: string): nat
    requires WellNamed(base)
  {
    100 * Digit(base[0]) + 10 * Digit(base[1]) + Digit(base[2])
  }

  function Name(base: string): string
    requires WellNamed(base)
  {
    base[..|base| - 4]
  }

  function Parse(base: string): Migration
    requires WellNamed(base)
  {
    Migration(Version(base), Name(base), base)
  }

  /** The first `n` names match the pattern and no two of them carry the same version. */
  predicate Acceptable(bases: seq<string>, n: nat)
    requires n <= |bases|
  {
    && (forall i | 0 <= i < n :: WellNamed(bases[i]))
    && (forall i, j | 0 <= i < j < n :: Version(bases[i]) != Version(bases[j]))
  }

  /** The complaint about `bases[n]`, the first name with which something is wrong. */
  predicate Complaint(bases: seq<string>, n: nat, e: CatalogError)
    requires n < |bases|
  {
    && Acceptable(bases, n)
    && if !WellNamed(bases[n]) then e == InvalidFilename(bases[n])
       else exists i | 0 <= i < n ::
           && Version(bases[i]) == Version(bases[n])
           && e == DuplicateVersion(Version(bases[n]), Name(bases[i]), Name(bases[n]))
  }

  predicate Ascending(ms: seq<Migration>) {
    forall i, j | 0 <= i < j < |ms| :: ms[i].version < ms[j].version
  }

  /** One step of the sort: the place of a migration among sorted ones. */
  function Insert(m: Migration, ms: seq<Migration>): (r: seq<Migration>)
    requires Ascending(ms) && forall i | 0 <= i < |ms| :: ms[i].version != m.version
    ensures Ascending(r) && |r| == |ms| + 1
    ensures forall x :: x in r <==> x == m || x in ms
  {
    if ms == [] || m.version < ms[0].version then [m] + ms
    else
      assert ms[0] in ms && forall i | 0 <= i < |ms[1..]| :: ms[1..][i] == ms[i + 1];
      var r := [ms[0]] + Insert(m, ms[1..]);
      assert forall i | 0 < i < |r| :: r[i] in Insert(m, ms[1..]);
      r
  }

  /** The sort by version, for versions that are all different. */
  function Sorted(ms: seq<Migration>): (r: seq<Migration>)
    requires forall i, j | 0 <= i < j < |ms| :: ms[i].version != ms[j].version
    ensures Ascending(r) && |r| == |ms|
    ensures forall x :: x in r <==> x in ms
  {
    if ms == [] then []
    else
      var last := ms[|ms| - 1];
      var init := ms[..|ms| - 1];
      var r := Sorted(init);
      assert forall x | x in r :: x in init && x.version != last.version;
      Insert(last, r)
  }

  /** The catalog of acceptable names. */
  function Load(bases: seq<string>): seq<Migration>
    requires Acceptable(bases, |bases|)
  {
    Sorted(seq(|bases|, i requires 0 <= i < |bases| => Parse(bases[i])))
  }

  /** It holds exactly one migration for each name, in ascending order of versions. */
  lemma LoadIsCatalog(bases: seq<string>)
    requires Acceptable(bases, |bases|)
    ensures Ascending(Load(bases)) && |Load(bases)| == |bases|
    ensures forall m :: m in Load(bases) <==> exists i | 0 <= i < |bases| :: m == Parse(bases[i])
  {
    var parsed := seq(|bases|, i requires 0 <= i < |bases| => Parse(bases[i]));
    assert forall i | 0 <= i < |bases| :: parsed[i] == Parse(bases[i]) && parsed[i] in parsed;
  }

  // ---------------------------------------------------------------- file names and their order

  /** A number below 1000 with three digits. */
  function ThreeDigits(n: nat): string
    requires n < 1000
  {
    [Numeral(n / 100), Numeral(n / 10 % 10), Numeral(n % 10)]
  }

  function Numeral(d: nat): char
    requires d < 10
  {
    (d + '0' as int) as char
  }

  /** The names that match the pattern are three digits, an underscore, something on one line, and ".sql". */
  lemma WellNamedIffPattern(base: string)
    ensures WellNamed(base) <==>
              exists digits: string, rest: string ::
                && base == digits + "_" + rest + ".sql"
                && |digits| == 3 && (forall i | 0 <= i < 3 :: '0' <= digits[i] <= '9')
                && rest != "" && '\n' !in rest
  {
    if WellNamed(base) {
      var digits, rest := base[..3], base[4..|base| - 4];
      assert base == digits + "_" + rest + ".sql";
    }
    if digits: string, rest: string :|
      && base == digits + "_" + rest + ".sql"
      && |digits| == 3 && (forall i | 0 <= i < 3 :: '0' <= digits[i] <= '9')
      && rest != "" && '\n' !in rest
    {
      assert forall i | 0 <= i < 3 :: base[i] == digits[i];
      assert base[4..|base| - 4] == rest && base[|base| - 4..] == ".sql";
    }
  }

  /** The order of dictionaries. */
  predicate Before(a: string, b: string) {
    b != [] && (a == [] || a[0] < b[0] || (a[0] == b[0] && Before(a[1..], b[1..])))
  }

  /** The version of a migration is the number its file name starts with, and the rest of the name is kept. */
  lemma VersionIsWritten(base: string)
    requires WellNamed(base)
    ensures var m := Parse(base);
            m.version < 1000 && ThreeDigits(m.version) == base[..3] && m.name + ".sql" == base == m.path
  {
    assert base == base[..|base| - 4] + base[|base| - 4..];
    var hundreds, tens, ones := base[0] as int - '0' as int, base[1] as int - '0' as int, base[2] as int - '0' as int;
    DigitsOf(Version(base), hundreds, tens, ones);
    assert base[0] == Numeral(hundreds) && base[1] == Numeral(tens) && base[2] == Numeral(ones);
    hide Numeral, Version;
    assert base[..3] == [base[0], base[1], base[2]];
  }

  lemma DigitsOf(n: nat, hundreds: nat, tens: nat, ones: nat)
    requires hundreds < 10 && tens < 10 && ones < 10 && n == 100 * hundreds + 10 * tens + ones
    ensures n < 1000 && n / 100 == hundreds && n / 10 % 10 == tens && n % 10 == ones
  {
    assert n / 10 == 10 * hundreds + tens;
  }

  /** Numbers are ordered as their three digits are. */
  lemma DigitsKeepOrder(m: nat, n: nat)
    requires m < n < 1000
    ensures Before(ThreeDigits(m), ThreeDigits(n))
  {
    hide Before, Numeral;
    MadeOfDigits(m);
    MadeOfDigits(n);
    ThreeBefore(m / 100, m / 10 % 10, m % 10, n / 100, n / 10 % 10, n % 10);
  }

  lemma MadeOfDigits(n: nat)
    requires n < 1000
    ensures n / 100 < 10 && n == 100 * (n / 100) + 10 * (n / 10 % 10) + n % 10
  {
    assert n / 10 == 10 * (n / 100) + n / 10 % 10;
  }

  lemma ThreeBefore(h: nat, t: nat, o: nat, h': nat, t': nat, o': nat)
    requires h < 10 && t < 10 && o < 10 && h' < 10 && t' < 10 && o' < 10
    requires 100 * h + 10 * t + o < 100 * h' + 10 * t' + o'
    ensures Before([Numeral(h), Numeral(t), Numeral(o)], [Numeral(h'), Numeral(t'), Numeral(o')])
  {
    var a, b := [Numeral(h), Numeral(t), Numeral(o)], [Numeral(h'), Numeral(t'), Numeral(o')];
    assert h < h' || (h == h' && (t < t' || (t == t' && o < o')));
    assert Before([a[2]], [b[2]]) <==> o < o';
    assert a[1..][1..] == [a[2]] && b[1..][1..] == [b[2]];
    assert a[1..][0] == a[1] && b[1..][0] == b[1];
  }

  /** What follows after a difference is immaterial. */
  lemma {:induction false} LongerNames(a: string, b: string, more: string, others: string)
    requires |a| == |b| && Before(a, b)
    ensures Before(a + more, b + others)
  {
    if a[0] == b[0] {
      LongerNames(a[1..], b[1..], more, others);
      assert (a + more)[1..] == a[1..] + more && (b + others)[1..] == b[1..] + others;
    }
  }

  lemma {:induction false} BeforeIsStrict(a: string, b: string)
    requires Before(a, b)
    ensures !Before(b, a)
  {
    if a != [] && a[0] == b[0] {
      BeforeIsStrict(a[1..], b[1..]);
    }
  }

  /** The catalog is in the order of the file names: one comes before another exactly if its three digits do. */
  lemma OrderOfNames(bases: seq<string>)
    requires Acceptable(bases, |bases|)
    ensures var c := Load(bases);
            && (forall i | 0 <= i < |c| :: WellNamed(c[i].path) && c[i].path in bases)
            && (forall i, j | 0 <= i < |c| && 0 <= j < |c| ::
                  && (i < j <==> Before(c[i].path[..3], c[j].path[..3]))
                  && (i < j <==> Before(c[i].path, c[j].path)))
  {
    hide Version, Load, Before, ThreeDigits;
    LoadIsCatalog(bases);
    var c := Load(bases);
    forall i | 0 <= i < |c|
      ensures WellNamed(c[i].path) && c[i].path in bases && c[i] == Parse(c[i].path)
    {
      assert c[i] in c;
    }
    forall i, j | 0 <= i < j < |c|
      ensures Before(c[i].path[..3], c[j].path[..3]) && !Before(c[j].path[..3], c[i].path[..3])
      ensures Before(c[i].path, c[j].path) && !Before(c[j].path, c[i].path)
    {
      NamesInOrder(c[i].path, c[j].path);
    }
    forall i | 0 <= i < |c|
      ensures !Before(c[i].path[..3], c[i].path[..3]) && !Before(c[i].path, c[i].path)
    {
      NotBeforeItself(c[i].path[..3]);
      NotBeforeItself(c[i].path);
    }
  }

  lemma NotBeforeItself(a: string)
    ensures !Before(a, a)
  {
    if Before(a, a) {
      BeforeIsStrict(a, a);
    }
  }

  lemma NamesInOrder(a: string, b: string)
    requires WellNamed(a) && WellNamed(b) && Parse(a).version < Parse(b).version
    ensures Before(a[..3], b[..3]) && !Before(b[..3], a[..3]) && Before(a, b) && !Before(b, a)
  {
    hide Version, ThreeDigits, Before;
    VersionIsWritten(a);
    VersionIsWritten(b);
    DigitsKeepOrder(Parse(a).version, Parse(b).version);
    LongerNames(a[..3], b[..3], a[3..], b[3..]);
    assert a == a[..3] + a[3..] && b == b[..3] + b[3..];
    BeforeIsStrict(a[..3], b[..3]);
    BeforeIsStrict(a, b);
  }

  method ReadCatalog(matches: seq<string>) returns (r: Result<seq<Migration>, CatalogError>)
    ensures r.Success? <==> Acceptable(matches, |matches|)
    ensures r.Success? ==> r.value == Load(matches)
    ensures r.Failure? ==>
              exists n | 0 <= n < |matches| :: Complaint(matches, n, r.error)
  {
    var migrations: seq<Migration> := [];
    var seen: map<nat, string> := map[];
    hide WellNamed, Version, Name, Digit;
    var n := 0;
    while n < |matches|
      invariant 0 <= n <= |matches| && |migrations| == n
      invariant forall i | 0 <= i < n :: WellNamed(matches[i]) && migrations[i] == Parse(matches[i])
      invariant Acceptable(matches, n)
      invariant forall i | 0 <= i < n :: Version(matches[i]) in seen
      invariant forall v | v in seen :: exists i | 0 <= i < n :: Version(matches[i]) == v && Name(matches[i]) == seen[v]
    {
      var base := matches[n];
      if !WellNamed(base) {
        assert Complaint(matches, n, InvalidFilename(base));
        return Failure(InvalidFilename(base));
      }
      var version, name := Version(base), Name(base);
      if version in seen {
        var i :| 0 <= i < n && Version(matches[i]) == version && Name(matches[i]) == seen[version];
        assert Complaint(matches, n, DuplicateVersion(version, seen[version], name));
        return Failure(DuplicateVersion(version, seen[version], name));
      }
      seen := seen[version := name];
      migrations := migrations + [Migration(version, name, base)];
      n := n + 1;
    }
    assert migrations == seq(|matches|, i requires 0 <= i < |matches| => Parse(matches[i]));
    r := Success(Sorted(migrations));
  }

  /** The catalog is determined by its contents: how it was sorted, and from what order, is immaterial. */
  lemma {:induction false} CatalogIsUnique(a: seq<Migration>, b: seq<Migration>)
    requires Ascending(a) && Ascending(b)
    requires forall x :: x in a <==> x in b
    ensures a == b
  {
    assert b != [] ==> b[0] in b;
    if a == [] {
    } else {
      assert a[0] in a;
      assert b != [] && b[0] in b && b[0] in a && a[0] in b;
      assert a[0] == b[0];
      forall x
        ensures x in a[1..] <==> x in b[1..]
      {
        assert x in a <==> x == a[0] || x in a[1..];
        assert x in b <==> x == b[0] || x in b[1..];
        if x in a[1..] {
          assert x.version > a[0].version;
        }
        if x in b[1..] {
          assert x.version > b[0].version;
        }
      }
      CatalogIsUnique(a[1..], b[1..]);
    }
  }
}
