/**
 * The trace-file list the script builds (parser.py, lines 55-63): one
 * hundred normal traces, then every attack's traces, numbered from 1.
 */
module ScapPaths {
  import opened PosixPath

  const DATASET_ROOT := "/data1/visitor/ContainerHIDS/datasets/CB-DS"
  const NORMAL_SCAPS := 100
  const SCAP_PER_ATTACK := 1
  /** The attack directories, as the flat list of names the path comprehension expects. */
  const ATTACKS: seq<string> := ["CVE-2016-9962", "CVE-2019-5736", "CVE-2022-0492", "M_SOCKET", "M_UHELPER",
                                 "M-MKNOD", "M-NET", "M-SYS_ADMIN", "M-SYS_MOD"]

  function DigitChar(d: nat): char
    requires d < 10
  {
    (('0' as int) + d) as char
  }

  /** `str(n)` for a natural number: its decimal digits, most significant first. */
  function NatToString(n: nat): (r: string)
    ensures |r| > 0
    ensures forall j :: 0 <= j < |r| ==> '0' <= r[j] <= '9'
  {
    if n < 10 then [DigitChar(n)] else NatToString(n / 10) + [DigitChar(n % 10)]
  }

  /** `os.path.join(CURRENT_DIR, DATASET_ROOT, "CB-DS")` */
  function DatasetDir(currentDir: string): string
  {
    Join(Join(currentDir, DATASET_ROOT), "CB-DS")
  }

  function NormalDir(currentDir: string): string
  {
    Join(DatasetDir(currentDir), "NORMAL")
  }

  function AttacksDir(currentDir: string): string
  {
    Join(DatasetDir(currentDir), "ATTACKS")
  }

  /** `f"{x+1}.scap"` */
  function ScapName(x: nat): string
  {
    NatToString(x + 1) + ".scap"
  }

  /** `[os.path.join(normalDir, f"{x+1}.scap") for x in range(100)]` */
  function NormalPaths(normalDir: string): seq<string>
  {
    seq(NORMAL_SCAPS, x requires 0 <= x => Join(normalDir, ScapName(x)))
  }

  function Flatten(groups: seq<seq<string>>): seq<string>
  {
    if |groups| == 0 then [] else groups[0] + Flatten(groups[1..])
  }

  /**
   * `[os.path.join(attacksDir, attack, f"{x+1}.scap") for x in range(perAttack) for attack in attacks]`:
   * the first `for` is the outer loop.
   */
  function AttackPaths(attacksDir: string, attacks: seq<string>, perAttack: nat): seq<string>
  {
    Flatten(AttackGroups(attacksDir, attacks, perAttack))
  }

  /** The inner comprehension for each trace number `x`: trace `x + 1` of every attack. */
  function AttackGroups(attacksDir: string, attacks: seq<string>, perAttack: nat): seq<seq<string>>
  {
    seq(perAttack, x requires 0 <= x =>
      seq(|attacks|, j requires 0 <= j < |attacks| => Join(Join(attacksDir, attacks[j]), ScapName(x))))
  }

  /** The list handed to the loader: `normal_scap_paths + attack_scap_paths`. */
  function ScapPathList(currentDir: string): seq<string>
  {
    NormalPaths(NormalDir(currentDir)) + AttackPaths(AttacksDir(currentDir), ATTACKS, SCAP_PER_ATTACK)
  }

  // ---------------------------------------------------------------------------

  /** The dataset root is absolute, so `os.path.join` discards the script's own directory. */
  lemma DatasetDirIgnoresCurrentDir(currentDir: string)
    ensures DatasetDir(currentDir) == "/data1/visitor/ContainerHIDS/datasets/CB-DS/CB-DS"
  {
    assert DATASET_ROOT[0] == '/';
    assert Join(currentDir, DATASET_ROOT) == DATASET_ROOT;
  }

  lemma {:induction false} NatToStringInjective(a: nat, b: nat)
    requires NatToString(a) == NatToString(b)
    ensures a == b
  {
    if a >= 10 && b >= 10 {
      var sa, sb := NatToString(a), NatToString(b);
      assert sa[..|sa| - 1] == NatToString(a / 10);
      assert sb[..|sb| - 1] == NatToString(b / 10);
      NatToStringInjective(a / 10, b / 10);
      assert sa[|sa| - 1] == sb[|sb| - 1];
    }
  }

  lemma ScapNameIsPlain(x: nat)
    ensures |ScapName(x)| > 0 && NoSep(ScapName(x))
  {
  }

  lemma ScapNameInjective(x: nat, y: nat)
    requires ScapName(x) == ScapName(y)
    ensures x == y
  {
    var s, t := NatToString(x + 1), NatToString(y + 1);
    assert ScapName(x)[..|ScapName(x)| - 5] == s;
    assert ScapName(y)[..|ScapName(y)| - 5] == t;
    NatToStringInjective(x + 1, y + 1);
  }

  lemma {:induction false} FlattenLength(groups: seq<seq<string>>, m: nat)
    requires forall x :: 0 <= x < |groups| ==> |groups[x]| == m
    ensures |Flatten(groups)| == |groups| * m
  {
    if |groups| > 0 {
      FlattenLength(groups[1..], m);
      assert |groups| * m == m + (|groups| - 1) * m;
    }
  }

  lemma {:induction false} FlattenAt(groups: seq<seq<string>>, m: nat, x: nat, j: nat)
    requires forall y :: 0 <= y < |groups| ==> |groups[y]| == m
    requires x < |groups| && j < m
    ensures x * m + j < |Flatten(groups)| && Flatten(groups)[x * m + j] == groups[x][j]
  {
    var rest := groups[1..];
    if x > 0 {
      FlattenAt(rest, m, x - 1, j);
      assert x * m + j == m + ((x - 1) * m + j);
    }
  }

  lemma {:induction false} FlattenMembers(groups: seq<seq<string>>)
    ensures forall s :: s in Flatten(groups) <==> exists x :: 0 <= x < |groups| && s in groups[x]
  {
    if |groups| > 0 {
      FlattenMembers(groups[1..]);
      assert forall x :: 1 <= x < |groups| ==> groups[x] == groups[1..][x - 1];
    }
  }

  predicate Unique(s: seq<string>)
  {
    forall p, q :: 0 <= p < q < |s| ==> s[p] != s[q]
  }

  /** Groups without repetition and without shared paths flatten to a list without repetition. */
  lemma {:induction false} FlattenUnique(groups: seq<seq<string>>)
    requires forall x :: 0 <= x < |groups| ==> Unique(groups[x])
    requires forall x, y, s :: 0 <= x < y < |groups| && s in groups[x] ==> s !in groups[y]
    ensures Unique(Flatten(groups))
  {
    if |groups| > 0 {
      var rest := groups[1..];
      FlattenUnique(rest);
      FlattenMembers(rest);
      var f := Flatten(groups);
      assert f == groups[0] + Flatten(rest);
      forall p, q | 0 <= p < q < |f|
        ensures f[p] != f[q]
      {
        if p < |groups[0]| && q >= |groups[0]| {
          var s := f[q];
          assert s in Flatten(rest);
          var x :| 0 <= x < |rest| && s in rest[x];
          assert s in groups[x + 1];
          assert f[p] in groups[0];
        }
      }
    }
  }

  /** The normal list holds `normalDir/1.scap` ... `normalDir/100.scap` in that order, no path twice. */
  lemma NormalPathsSpec(normalDir: string)
    ensures |NormalPaths(normalDir)| == NORMAL_SCAPS
    ensures forall x :: 0 <= x < NORMAL_SCAPS ==> NormalPaths(normalDir)[x] == Join(normalDir, NatToString(x + 1) + ".scap")
    ensures Unique(NormalPaths(normalDir))
  {
    var ps := NormalPaths(normalDir);
    forall x, y | 0 <= x < y < |ps|
      ensures ps[x] != ps[y]
    {
      if ps[x] == ps[y] {
        ScapNameIsPlain(x);
        ScapNameIsPlain(y);
        JoinInjective(normalDir, ScapName(x), ScapName(y));
        ScapNameInjective(x, y);
      }
    }
  }

  /** The attack list has one path per attack and trace number. */
  lemma AttackPathsLength(attacksDir: string, attacks: seq<string>, perAttack: nat)
    ensures |AttackPaths(attacksDir, attacks, perAttack)| == perAttack * |attacks|
  {
    FlattenLength(AttackGroups(attacksDir, attacks, perAttack), |attacks|);
  }

  /**
   * Position `x * |attacks| + j` of the attack list holds trace `x + 1` of
   * attack `j`: the trace number is the outer loop, the attack the inner one.
   */
  lemma AttackPathAt(attacksDir: string, attacks: seq<string>, perAttack: nat, x: nat, j: nat)
    requires x < perAttack && j < |attacks|
    ensures x * |attacks| + j < |AttackPaths(attacksDir, attacks, perAttack)|
    ensures AttackPaths(attacksDir, attacks, perAttack)[x * |attacks| + j] == Join(Join(attacksDir, attacks[j]), ScapName(x))
  {
    var groups := AttackGroups(attacksDir, attacks, perAttack);
    FlattenAt(groups, |attacks|, x, j);
  }

  /** Trace `x + 1` of attack `a` is the only path of that attack and number. */
  lemma AttackPathInjective(attacksDir: string, a: string, b: string, x: nat, y: nat)
    requires |a| > 0 && NoSep(a) && |b| > 0 && NoSep(b)
    requires Join(Join(attacksDir, a), ScapName(x)) == Join(Join(attacksDir, b), ScapName(y))
    ensures a == b && x == y
  {
    JoinName(attacksDir, a);
    JoinName(attacksDir, b);
    ScapNameIsPlain(x);
    ScapNameIsPlain(y);
    SplitJoin(Join(attacksDir, a), ScapName(x));
    SplitJoin(Join(attacksDir, b), ScapName(y));
    ScapNameInjective(x, y);
  }

  /** Distinct plain attack names give an attack list without repetition. */
  lemma AttackPathsUnique(attacksDir: string, attacks: seq<string>, perAttack: nat)
    requires forall j :: 0 <= j < |attacks| ==> |attacks[j]| > 0 && NoSep(attacks[j])
    requires forall i, j :: 0 <= i < j < |attacks| ==> attacks[i] != attacks[j]
    ensures Unique(AttackPaths(attacksDir, attacks, perAttack))
  {
    var groups := AttackGroups(attacksDir, attacks, perAttack);
    forall x | 0 <= x < |groups|
      ensures Unique(groups[x])
    {
      forall p, q | 0 <= p < q < |attacks|
        ensures groups[x][p] != groups[x][q]
      {
        if groups[x][p] == groups[x][q] {
          AttackPathInjective(attacksDir, attacks[p], attacks[q], x, x);
        }
      }
    }
    forall x, y, s | 0 <= x < y < |groups| && s in groups[x]
      ensures s !in groups[y]
    {
      if s in groups[y] {
        var p :| 0 <= p < |attacks| && groups[x][p] == s;
        var q :| 0 <= q < |attacks| && groups[y][q] == s;
        AttackPathInjective(attacksDir, attacks[p], attacks[q], x, y);
      }
    }
    FlattenUnique(groups);
  }

  /** The attack names are plain, distinct directory names. */
  lemma AttacksArePlain()
    ensures forall j :: 0 <= j < |ATTACKS| ==> |ATTACKS[j]| > 0 && NoSep(ATTACKS[j]) && ATTACKS[j] != "NORMAL" && ATTACKS[j] != "-"
    ensures forall i, j :: 0 <= i < j < |ATTACKS| ==> ATTACKS[i] != ATTACKS[j]
  {
  }
}
