// Names of shared blocks: the broker's socket paths and the registration of a block.

module Naming {
  import opened Bytes
  import opened Outcome

  // ---- Decimal numerals ----

  function Digit(d: nat): char
    requires d < 10
  {
    "0123456789"[d]
  }

  function Decimal(n: nat): string {
    if n < 10 then [Digit(n)] else Decimal(n / 10) + [Digit(n % 10)]
  }

  lemma DigitsDiffer(a: nat, b: nat)
    requires a < 10 && b < 10 && Digit(a) == Digit(b)
    ensures a == b
  {
  }

  lemma {:induction false} DecimalHasNoUnderscore(n: nat)
    ensures |Decimal(n)| > 0 && '_' !in Decimal(n) && '.' !in Decimal(n)
  {
    if n >= 10 {
      DecimalHasNoUnderscore(n / 10);
    }
  }

  lemma {:induction false} DecimalIsInjective(a: nat, b: nat)
    requires Decimal(a) == Decimal(b)
    ensures a == b
  {
    DecimalHasNoUnderscore(a / 10);
    DecimalHasNoUnderscore(b / 10);
    assert Decimal(a)[|Decimal(a)| - 1] == Digit(a % 10);
    assert Decimal(b)[|Decimal(b)| - 1] == Digit(b % 10);
    DigitsDiffer(a % 10, b % 10);
    if a >= 10 && b >= 10 {
      assert Decimal(a / 10) == Decimal(a)[..|Decimal(a)| - 1] == Decimal(b)[..|Decimal(b)| - 1] == Decimal(b / 10);
      DecimalIsInjective(a / 10, b / 10);
    }
  }

  // What a numeral stands for.
  function Value(s: string): nat {
    if s == "" then 0 else 10 * Value(s[..|s| - 1]) + (if '0' <= s[|s| - 1] <= '9' then s[|s| - 1] as nat - '0' as nat else 0)
  }

  // A numeral stands for its number and has no leading zero.
  lemma {:induction false} DecimalStandsFor(n: nat)
    ensures Value(Decimal(n)) == n && |Decimal(n)| > 0 && (Decimal(n)[0] == '0' <==> n == 0)
    ensures forall c | c in Decimal(n) :: '0' <= c <= '9'
  {
    if n >= 10 {
      DecimalStandsFor(n / 10);
      assert Decimal(n)[..|Decimal(n)| - 1] == Decimal(n / 10);
    }
  }

  // ---- Paths ----

  const PREFIX: string := "/tmp/shared_buffer_"
  const SUFFIX: string := ".sock"

  function SocketPath(euid: nat, pid: nat, blockId: nat, fd: nat): string {
    PREFIX + (Decimal(euid) + "_" + (Decimal(pid) + "_" + (Decimal(blockId) + "_" + (Decimal(fd) + SUFFIX))))
  }

  // What a path looks like.
  lemma SocketPathReads()
    ensures SocketPath(1000, 42, 7, 30) == "/tmp/shared_buffer_1000_42_7_30.sock"
  {
  }

  // A separator that occurs in neither head splits a text in one way only.
  lemma SplitOnce(a: string, x: string, b: string, y: string, sep: char)
    requires a + [sep] + x == b + [sep] + y && sep !in a && sep !in b
    ensures a == b && x == y
  {
    var s := a + [sep] + x;
    assert s[|a|] == sep && s[|b|] == sep;
    assert |a| == |b|;
    assert a == s[..|a|] == b && x == s[|a| + 1..] == y;
  }

  lemma SplitNumber(m: nat, x: string, n: nat, y: string)
    requires Decimal(m) + "_" + x == Decimal(n) + "_" + y
    ensures m == n && x == y
  {
    DecimalHasNoUnderscore(m);
    DecimalHasNoUnderscore(n);
    SplitOnce(Decimal(m), x, Decimal(n), y, '_');
    DecimalIsInjective(m, n);
  }

  // The path names exactly one (user, process, block, descriptor): live blocks with distinct file
  // descriptors never share a cache key.
  lemma SocketPathIsInjective(e1: nat, p1: nat, b1: nat, f1: nat, e2: nat, p2: nat, b2: nat, f2: nat)
    requires SocketPath(e1, p1, b1, f1) == SocketPath(e2, p2, b2, f2)
    ensures e1 == e2 && p1 == p2 && b1 == b2 && f1 == f2
  {
    var fd1, fd2 := Decimal(f1) + SUFFIX, Decimal(f2) + SUFFIX;
    var block1, block2 := Decimal(b1) + "_" + fd1, Decimal(b2) + "_" + fd2;
    var pid1, pid2 := Decimal(p1) + "_" + block1, Decimal(p2) + "_" + block2;
    assert SocketPath(e1, p1, b1, f1)[|PREFIX|..] == Decimal(e1) + "_" + pid1;
    assert SocketPath(e2, p2, b2, f2)[|PREFIX|..] == Decimal(e2) + "_" + pid2;
    SplitNumber(e1, pid1, e2, pid2);
    SplitNumber(p1, block1, p2, block2);
    SplitNumber(b1, fd1, b2, fd2);
    assert Decimal(f1) == fd1[..|fd1| - |SUFFIX|] == fd2[..|fd2| - |SUFFIX|] == Decimal(f2);
    DecimalIsInjective(f1, f2);
  }

  // ---- Registration ----

  class FdBroker {
    const euid: nat
    const pid: nat
    var registeredBlocks: map<U32, string>

    // The descriptor each block was registered with.
    ghost var fds: map<U32, nat>

    constructor (euid: nat, pid: nat)
      ensures Valid() && this.euid == euid && this.pid == pid && registeredBlocks == map[]
    {
      this.euid, this.pid, registeredBlocks, fds := euid, pid, map[], map[];
    }

    ghost predicate Valid()
      reads this
    {
      registeredBlocks.Keys == fds.Keys &&
      forall b | b in fds :: registeredBlocks[b] == SocketPath(euid, pid, b, fds[b])
    }

    // Two blocks of a process never share a path.
    lemma PathsDiffer(a: U32, b: U32)
      requires Valid() && a in registeredBlocks && b in registeredBlocks && a != b
      ensures registeredBlocks[a] != registeredBlocks[b]
    {
      if registeredBlocks[a] == registeredBlocks[b] {
        SocketPathIsInjective(euid, pid, a, fds[a], euid, pid, b, fds[b]);
      }
    }

    // The path of a block: registered once, then the same forever. `listening` says whether the
    // operating system let the socket be set up and served.
    method RegisterBlock(blockId: U32, fd: int, listening: bool) returns (r: Result<string>)
      requires Valid()
      modifies this
      ensures Valid()
      ensures fd < 0 ==> r == Ok("") && registeredBlocks == old(registeredBlocks)
      ensures r.Ok? && fd >= 0 ==> r.value != "" && blockId in registeredBlocks && registeredBlocks[blockId] == r.value
      ensures fd >= 0 && blockId in old(registeredBlocks) ==>
        r == Ok(old(registeredBlocks)[blockId]) && registeredBlocks == old(registeredBlocks)
      ensures fd >= 0 && blockId !in old(registeredBlocks) ==>
        if listening then
          r == Ok(SocketPath(euid, pid, blockId, fd)) && registeredBlocks == old(registeredBlocks)[blockId := r.value]
        else r == Err(RuntimeError) && registeredBlocks == old(registeredBlocks)
    {
      if fd < 0 {
        return Ok("");
      }
      if blockId in registeredBlocks {
        return Ok(registeredBlocks[blockId]);
      }
      var path := SocketPath(euid, pid, blockId, fd);
      if !listening {
        return Err(RuntimeError);
      }
      registeredBlocks, fds := registeredBlocks[blockId := path], fds[blockId := fd];
      r := Ok(path);
    }
  }
}
