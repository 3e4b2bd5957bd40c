/** CPU masks of receive queues: comma-separated groups of hexadecimal digits, most significant first. */
module Rps {
  import opened Sequences

  // ---------------------------------------------------------------- what a mask denotes

  function Pow2(n: nat): (p: nat)
    ensures p > 0
  {
    if n == 0 then 1 else 2 * Pow2(n - 1)
  }

  lemma {:induction false} Pow2Add(a: nat, b: nat)
    ensures Pow2(a + b) == Pow2(a) * Pow2(b)
  {
    if b > 0 { Pow2Add(a, b - 1); }
  }

  predicate IsHex(c: char) {
    '0' <= c <= '9' || 'a' <= c <= 'f' || 'A' <= c <= 'F'
  }

  function Digit(c: char): (d: nat)
    requires IsHex(c)
    ensures d < 16
  {
    if c <= '9' then c as int - '0' as int
    else if c <= 'F' then c as int - 'A' as int + 10
    else c as int - 'a' as int + 10
  }

  predicate AllHex(s: string) {
    forall i | 0 <= i < |s| :: IsHex(s[i])
  }

  function HexValue(s: string): nat
    requires AllHex(s)
  {
    if s == "" then 0 else 16 * HexValue(s[..|s| - 1]) + Digit(s[|s| - 1])
  }

  /** The parts between commas. */
  function Split(s: string): (parts: seq<string>)
    ensures parts != []
  {
    if s == "" then [""] else
      var parts, c := Split(s[..|s| - 1]), s[|s| - 1];
      if c == ',' then parts + [""] else parts[..|parts| - 1] + [parts[|parts| - 1] + [c]]
  }

  predicate HexGroups(groups: seq<string>) {
    forall i | 0 <= i < |groups| :: AllHex(groups[i])
  }

  /** Every group but the first has eight digits. */
  predicate FullGroups(groups: seq<string>) {
    HexGroups(groups) && forall i | 1 <= i < |groups| :: |groups[i]| == 8
  }

  function GroupsValue(groups: seq<string>): nat
    requires HexGroups(groups)
  {
    if groups == [] then 0 else
      GroupsValue(groups[..|groups| - 1]) * Pow2(32) + HexValue(groups[|groups| - 1])
  }

  // ---------------------------------------------------------------- text

  predicate IsSpace(c: char) {
    c == ' ' || '\t' <= c <= '\r' || c == 0x85 as char || c == 0xA0 as char
  }

  function TrimLeft(s: string): string {
    if s != "" && IsSpace(s[0]) then TrimLeft(s[1..]) else s
  }

  function TrimRight(s: string): string {
    if s != "" && IsSpace(s[|s| - 1]) then TrimRight(s[..|s| - 1]) else s
  }

  function TrimSpace(s: string): string {
    TrimRight(TrimLeft(s))
  }

  function Lower(s: string): (t: string)
    ensures |t| == |s|
  {
    seq(|s|, i requires 0 <= i < |s| => if 'A' <= s[i] <= 'Z' then (s[i] as int + 32) as char else s[i])
  }

  function NoCommas(s: string): string {
    if s == "" then "" else NoCommas(s[..|s| - 1]) + if s[|s| - 1] == ',' then "" else [s[|s| - 1]]
  }

  function NoZeros(s: string): string {
    if s != "" && s[0] == '0' then NoZeros(s[1..]) else s
  }

  /** normalizeRPSMask */
  function NormalizeRPSMask(mask: string): string {
    var digits := NoZeros(NoCommas(Lower(TrimSpace(mask))));
    if digits == "" then "0" else digits
  }

  lemma {:induction false} TrimLeftNewline(s: string)
    ensures TrimLeft(s + "\n") == if TrimLeft(s) == "" then "" else TrimLeft(s) + "\n"
  {
    if s == "" {
      assert s + "\n" == "\n" && "\n"[1..] == "";
    } else if IsSpace(s[0]) {
      assert (s + "\n")[1..] == s[1..] + "\n";
      TrimLeftNewline(s[1..]);
    }
  }

  /** The line end that the kernel shows after a mask does not count. */
  lemma ShownMask(mask: string)
    ensures NormalizeRPSMask(mask + "\n") == NormalizeRPSMask(mask)
  {
    TrimLeftNewline(mask);
    var s := TrimLeft(mask);
    assert (s + "\n")[..|s|] == s;
  }

  /** Digits count as they do in hexadecimal numbers, small and capital ones, and a group has 32 bits. */
  lemma DigitsCount(c: char)
    ensures IsHex(c) <==> '0' <= c <= '9' || 'a' <= c <= 'f' || 'A' <= c <= 'F'
    ensures '0' <= c <= '9' ==> Digit(c) == c as int - '0' as int
    ensures 'a' <= c <= 'f' ==> Digit(c) == 10 + (c as int - 'a' as int)
    ensures 'A' <= c <= 'F' ==> Digit(c) == 10 + (c as int - 'A' as int)
    ensures Pow2(32) == 0x1_0000_0000
  {
    assert Pow2(8) == 0x100;
    Pow2Add(8, 8);
    Pow2Add(16, 16);
  }

  /** A mask as the kernel shows it: full groups, perhaps within white space. */
  predicate IsMask(text: string) {
    FullGroups(Split(TrimSpace(text)))
  }

  function ValueOf(text: string): nat
    requires IsMask(text)
  {
    GroupsValue(Split(TrimSpace(text)))
  }

  /** strconv.FormatUint(v, 16) */
  function Hex(v: nat): (s: string)
    ensures s != "" && AllHex(s) && HexValue(s) == v
  {
    var c := if v % 16 < 10 then ('0' as int + v % 16) as char else ('a' as int + v % 16 - 10) as char;
    if v < 16 then [c] else
      var s := Hex(v / 16) + [c];
      assert s[..|s| - 1] == Hex(v / 16);
      s
  }

  // ---------------------------------------------------------------- the normal form is the value

  lemma ShiftOne(x: nat, p: nat, y: nat, d: nat)
    ensures 16 * (x * p + y) + d == x * (p * 16) + (16 * y + d)
  {
    assert x * (p * 16) == 16 * (x * p);
  }

  lemma {:induction false} HexConcat(a: string, b: string)
    requires AllHex(a) && AllHex(b)
    ensures AllHex(a + b) && HexValue(a + b) == HexValue(a) * Pow2(4 * |b|) + HexValue(b)
  {
    if b == "" {
      assert a + b == a;
    } else {
      var b' := b[..|b| - 1];
      assert (a + b)[..|a + b| - 1] == a + b';
      HexConcat(a, b');
      assert Pow2(4 * |b|) == Pow2(4 * |b'|) * 16 by { Pow2Add(4 * |b'|, 4); }
      ShiftOne(HexValue(a), Pow2(4 * |b'|), HexValue(b'), Digit(b[|b| - 1]));
      hide Pow2;
    }
  }

  /** Full groups written one after the other are one hexadecimal number. */
  lemma {:induction false} GroupsAreOneNumber(groups: seq<string>)
    requires FullGroups(groups)
    ensures AllHex(Flatten(groups)) && HexValue(Flatten(groups)) == GroupsValue(groups)
  {
    if groups != [] {
      var front, last := groups[..|groups| - 1], groups[|groups| - 1];
      GroupsAreOneNumber(front);
      HexConcat(Flatten(front), last);
      if front == [] { assert HexValue(Flatten(front)) == 0; }
    }
  }

  lemma {:induction false} NoCommasIsFlatten(s: string)
    ensures NoCommas(s) == Flatten(Split(s))
  {
    if s == "" {
      assert Flatten([""]) == Flatten([]) + "" by { FlattenSnoc([], ""); }
    } else {
      var parts, c := Split(s[..|s| - 1]), s[|s| - 1];
      var front, last := parts[..|parts| - 1], parts[|parts| - 1];
      NoCommasIsFlatten(s[..|s| - 1]);
      assert Split(s) == if c == ',' then parts + [""] else front + [last + [c]];
      assert NoCommas(s) == Flatten(parts) + if c == ',' then "" else [c];
      hide Flatten, Split, NoCommas;
      assert parts == front + [last];
      FlattenSnoc(front, last);
      FlattenSnoc(parts, "");
      FlattenSnoc(front, last + [c]);
    }
  }

  lemma {:induction false} NoZerosKeepsValue(s: string)
    requires AllHex(s)
    ensures AllHex(NoZeros(s)) && HexValue(NoZeros(s)) == HexValue(s)
    ensures NoZeros(s) != "" ==> NoZeros(s)[0] != '0'
  {
    if s != "" && s[0] == '0' {
      NoZerosKeepsValue(s[1..]);
      assert s == "0" + s[1..];
      HexConcat("0", s[1..]);
      assert HexValue("0") == 16 * HexValue("") + 0;
    }
  }

  lemma ValueSnoc(s: string)
    requires s != "" && AllHex(s)
    ensures HexValue(s) == 16 * HexValue(s[..|s| - 1]) + Digit(s[|s| - 1])
  {
  }

  predicate LowerHex(s: string) {
    forall i | 0 <= i < |s| :: '0' <= s[i] <= '9' || 'a' <= s[i] <= 'f'
  }

  /** A number has one spelling in lower case without leading zeros. */
  lemma {:induction false} OneSpelling(s: string)
    requires s != "" && LowerHex(s) && (s[0] != '0' || |s| == 1)
    ensures AllHex(s) && s == Hex(HexValue(s))
    ensures s[0] != '0' ==> HexValue(s) > 0
  {
    var front, c := s[..|s| - 1], s[|s| - 1];
    if front == "" {
      assert s == [c];
    } else {
      OneSpelling(front);
      hide HexValue;
      assert HexValue(s) == 16 * HexValue(front) + Digit(c) by { ValueSnoc(s); }
      assert HexValue(s) / 16 == HexValue(front) && HexValue(s) % 16 == Digit(c);
    }
  }

  lemma {:induction false} LowerDigits(s: string)
    requires AllHex(s)
    ensures LowerHex(Lower(s)) && AllHex(Lower(s)) && HexValue(Lower(s)) == HexValue(s)
  {
    if s != "" {
      LowerDigits(s[..|s| - 1]);
      assert Lower(s)[..|s| - 1] == Lower(s[..|s| - 1]);
    }
  }

  lemma {:induction false} LowerOfNoCommas(s: string)
    ensures NoCommas(Lower(s)) == Lower(NoCommas(s))
  {
    if s != "" {
      LowerOfNoCommas(s[..|s| - 1]);
      assert Lower(s)[..|s| - 1] == Lower(s[..|s| - 1]);
      var front, c := NoCommas(s[..|s| - 1]), s[|s| - 1];
      assert Lower(front + [c]) == Lower(front) + Lower([c]);
    }
  }

  /** The normal form of a mask is its value in hexadecimal; so two masks have equal normal forms exactly when they
      denote the same CPUs. */
  lemma NormalFormIsValue(text: string)
    requires IsMask(text)
    ensures NormalizeRPSMask(text) == Hex(ValueOf(text))
  {
    var mask := TrimSpace(text);
    var groups := Split(mask);
    GroupsAreOneNumber(groups);
    NoCommasIsFlatten(mask);
    LowerOfNoCommas(mask);
    LowerDigits(Flatten(groups));
    var digits := Lower(Flatten(groups));
    NoZerosKeepsValue(digits);
    LowerWithoutZeros(digits);
    var rest := NoZeros(digits);
    if rest == "" {
      assert HexValue(rest) == 0;
      OneSpelling("0");
      assert HexValue("0") == 16 * HexValue("") + 0;
    } else {
      OneSpelling(rest);
    }
  }

  lemma {:induction false} LowerWithoutZeros(s: string)
    requires LowerHex(s)
    ensures LowerHex(NoZeros(s))
  {
    if s != "" && s[0] == '0' { LowerWithoutZeros(s[1..]); }
  }

  lemma EqualNormalForms(a: string, b: string)
    requires IsMask(a) && IsMask(b)
    ensures NormalizeRPSMask(a) == NormalizeRPSMask(b) <==> ValueOf(a) == ValueOf(b)
  {
    NormalFormIsValue(a);
    NormalFormIsValue(b);
  }

  // ---------------------------------------------------------------- the mask of n CPUs

  /** strings.Join with commas. */
  function Join(groups: seq<string>): string
    requires groups != []
  {
    if |groups| == 1 then groups[0] else Join(groups[..|groups| - 1]) + "," + groups[|groups| - 1]
  }

  lemma {:induction false} SplitTail(s: string, group: string)
    requires ',' !in group
    ensures Split(s + "," + group) == Split(s) + [group]
  {
    var all := s + "," + group;
    if group == "" {
      assert all[..|all| - 1] == s;
    } else {
      var front := group[..|group| - 1];
      assert all[..|all| - 1] == s + "," + front;
      SplitTail(s, front);
      assert group == front + [group[|group| - 1]];
    }
  }

  lemma {:induction false} SplitOne(group: string)
    requires ',' !in group
    ensures Split(group) == [group]
  {
    if group != "" {
      SplitOne(group[..|group| - 1]);
      assert group == group[..|group| - 1] + [group[|group| - 1]];
    }
  }

  lemma {:induction false} SplitJoin(groups: seq<string>)
    requires groups != [] && HexGroups(groups)
    ensures Split(Join(groups)) == groups
  {
    var front, last := groups[..|groups| - 1], groups[|groups| - 1];
    assert AllHex(last) && ',' !in last;
    hide Split, AllHex;
    assert groups == front + [last];
    if front == [] {
      SplitOne(last);
    } else {
      assert HexGroups(front);
      SplitJoin(front);
      SplitTail(Join(front), last);
    }
  }

  lemma {:induction false} JoinHasNoSpace(groups: seq<string>)
    requires groups != [] && HexGroups(groups)
    ensures forall i | 0 <= i < |Join(groups)| :: !IsSpace(Join(groups)[i])
  {
    if |groups| > 1 { JoinHasNoSpace(groups[..|groups| - 1]); }
  }

  lemma NothingToTrim(s: string)
    requires forall i | 0 <= i < |s| :: !IsSpace(s[i])
    ensures TrimSpace(s) == s
  {
  }

  lemma {:induction false} AllFs(s: string)
    requires forall i | 0 <= i < |s| :: s[i] == 'f'
    ensures AllHex(s) && HexValue(s) == Pow2(4 * |s|) - 1
  {
    if s != "" {
      AllFs(s[..|s| - 1]);
      Pow2Add(4 * (|s| - 1), 4);
      assert Pow2(4) == 16;
    }
  }

  lemma JoinedIsMask(groups: seq<string>)
    requires groups != [] && FullGroups(groups)
    ensures IsMask(Join(groups)) && ValueOf(Join(groups)) == GroupsValue(groups)
  {
    SplitJoin(groups);
    JoinHasNoSpace(groups);
    NothingToTrim(Join(groups));
    hide Split, TrimSpace, GroupsValue, Join;
  }

  lemma GroupsSnoc(groups: seq<string>, group: string)
    requires FullGroups(groups) && AllHex(group) && |group| == 8
    ensures FullGroups(groups + [group])
    ensures GroupsValue(groups + [group]) == GroupsValue(groups) * Pow2(32) + HexValue(group)
  {
    assert (groups + [group])[..|groups|] == groups;
    hide Pow2, HexValue;
  }

  /** One more full group for 32 more CPUs. */
  lemma FullGroup(groups: seq<string>, done: nat)
    requires FullGroups(groups) && GroupsValue(groups) == Pow2(done) - 1
    ensures FullGroups(groups + ["ffffffff"]) && GroupsValue(groups + ["ffffffff"]) == Pow2(done + 32) - 1
  {
    AllFs("ffffffff");
    Pow2Add(done, 32);
    GroupsSnoc(groups, "ffffffff");
    hide Pow2, GroupsValue, HexValue, FullGroups;
    Distribute(Pow2(done), Pow2(32));
  }

  lemma Distribute(a: nat, b: nat)
    ensures (a - 1) * b + (b - 1) == a * b - 1
  {
  }

  /** rpsCPUMask: the mask of the CPUs 0 to n - 1. */
  method RpsCPUMask(n: int) returns (mask: string, valid: bool)
    ensures valid <==> n > 0
    ensures valid ==> IsMask(mask) && ValueOf(mask) == Pow2(n) - 1
    ensures !valid ==> mask == ""
  {
    if n <= 0 { return "", false; }
    hide Pow2, Hex, HexValue, FullGroups, GroupsValue, Join, IsMask, ValueOf;
    var groups: seq<string> := [];
    NoCPU();
    var remainder := n % 32;
    if remainder != 0 {
      var bits: nat := Pow2(remainder) - 1;
      groups := [Hex(bits)];
      OneGroup(Hex(bits));
    }
    ghost var done: nat := remainder;
    var fullGroups := n / 32;
    while fullGroups > 0
      invariant fullGroups >= 0 && done == n - 32 * fullGroups
      invariant FullGroups(groups) && GroupsValue(groups) == Pow2(done) - 1 && (groups == [] ==> done == 0)
    {
      FullGroup(groups, done);
      groups := groups + ["ffffffff"];
      fullGroups, done := fullGroups - 1, done + 32;
    }
    mask, valid := Join(groups), true;
    JoinedIsMask(groups);
  }

  lemma NoCPU()
    ensures Pow2(0) == 1 && FullGroups([]) && GroupsValue([]) == 0
  {
  }

  lemma OneGroup(group: string)
    requires AllHex(group)
    ensures FullGroups([group]) && GroupsValue([group]) == HexValue(group)
  {
    assert GroupsValue([group][..0]) == 0;
  }

  // ---------------------------------------------------------------- the queues of a link

  /** The rps_cpus files of a link's receive queues, as they read. */
  class Queues {
    const masks: array<string>
    const unreadable: set<nat>
    const unwritable: set<nat>

    constructor (masks: array<string>, unreadable: set<nat>, unwritable: set<nat>)
      ensures this.masks == masks && this.unreadable == unreadable && this.unwritable == unwritable
    {
      this.masks, this.unreadable, this.unwritable := masks, unreadable, unwritable;
    }

    /** The kernel shows a written mask in its own way. */
    method Write(i: nat, mask: string) returns (failed: bool)
      requires i < masks.Length && IsMask(mask)
      modifies masks
      ensures failed <==> i in unwritable
      ensures failed ==> masks[..] == old(masks[..])
      ensures !failed ==> IsMask(masks[i]) && ValueOf(masks[i]) == ValueOf(mask)
      ensures forall k | 0 <= k < masks.Length && k != i :: masks[k] == old(masks[k])
    {
      failed := i in unwritable;
      if failed { return; }
      var shown: string :| IsMask(shown) && ValueOf(shown) == ValueOf(mask);
      masks[i] := shown;
    }

    /** ensureLinkRPSWithCPUCount: afterwards every queue is served by all n CPUs; only queues that were
        not are written, so a run after a success writes nothing. */
    method EnsureLinkRPS(n: int) returns (failed: bool, written: set<nat>)
      requires forall i | 0 <= i < masks.Length :: IsMask(masks[i])
      modifies masks
      ensures n <= 0 || masks.Length == 0 ==> failed && written == {} && masks[..] == old(masks[..])
      ensures forall i | 0 <= i < masks.Length :: IsMask(masks[i]) && (i !in written ==> masks[i] == old(masks[i]))
      ensures forall i | i in written :: i < masks.Length && n > 0 && ValueOf(old(masks[i])) != Pow2(n) - 1
      ensures n > 0 && (forall i | 0 <= i < masks.Length :: ValueOf(old(masks[i])) == Pow2(n) - 1) ==>
                written == {} && masks[..] == old(masks[..])
      ensures failed && n > 0 && masks.Length > 0 ==>
                exists i | 0 <= i < masks.Length ::
                  && (i in unreadable || (i in unwritable && ValueOf(old(masks[i])) != Pow2(n) - 1))
                  && (forall k | 0 <= k < i :: ValueOf(masks[k]) == Pow2(n) - 1)
                  && (forall k | i <= k < masks.Length :: masks[k] == old(masks[k]))
      ensures !failed ==> n > 0 && forall i | 0 <= i < masks.Length :: ValueOf(masks[i]) == Pow2(n) - 1
    {
      hide IsMask, ValueOf, NormalizeRPSMask, Pow2;
      written := {};
      var mask, valid := RpsCPUMask(n);
      if !valid || masks.Length == 0 { return true, {}; }
      for i := 0 to masks.Length
        invariant forall k | 0 <= k < masks.Length :: IsMask(masks[k]) && (k !in written ==> masks[k] == old(masks[k]))
        invariant forall k | k in written :: k < i && ValueOf(old(masks[k])) != Pow2(n) - 1
        invariant forall k | 0 <= k < i :: ValueOf(masks[k]) == Pow2(n) - 1
      {
        failed := i in unreadable;
        if failed { return; }
        EqualNormalForms(masks[i], mask);
        if NormalizeRPSMask(masks[i]) == NormalizeRPSMask(mask) { continue; }
        failed := Write(i, mask);
        if failed { return; }
        written := written + {i};
      }
      failed := false;
    }
  }
}
