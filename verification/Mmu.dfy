/** Address translation as the hardware does it (sections 4.3.2 and 4.4 of the RISC-V Privileged
    Architecture), on nothing but the words in memory: the fields of an address and the bits
    of a word are written out here and not shared with the kernel's own macros. */
module Mmu {
  import opened Options
  import opened Kalloc
  import opened Sv39

  /** The word with which the translation of va ends, starting at the table page of the given
      level in page n; None for a page fault. */
  ghost function Translate(ram: Ram, n: nat, va: nat, level: nat): Option<nat>
    requires level <= 2
    decreases level
  {
    var i := va / (if level == 2 then 0x4000_0000 else if level == 1 then 0x20_0000 else 0x1000) % 512;
    if n !in ram || !ram[n].Words? || i >= |ram[n].ws| then None
    else
      var w := ram[n].ws[i];
      if w % 2 == 0 || (w / 2 % 2 == 0 && w / 4 % 2 == 1) then None
      else if w / 2 % 2 == 1 || w / 8 % 2 == 1 then Some(w)
      else if level == 0 then None
      else Translate(ram, w / 1024, va, level - 1)
  }

  /** The word w says what e says: the page number from bit 10 on; V, R, W, X and U in bits 0 to 4;
      zeros between. */
  predicate Spells(w: nat, e: Pte) {
    && w / 1024 == e.ppn && w / 32 % 32 == 0
    && (w % 2 == 1 <==> e.flags.v) && (w / 2 % 2 == 1 <==> e.flags.r) && (w / 4 % 2 == 1 <==> e.flags.w)
    && (w / 8 % 2 == 1 <==> e.flags.x) && (w / 16 % 2 == 1 <==> e.flags.u)
  }

  /** The entries that the hardware takes for a mapping: writable implies readable. */
  predicate Proper(e: Pte) { e.flags.v && (e.flags.r || (e.flags.x && !e.flags.w)) }

  /** The translation of every address in page vpn, from the root table in page r, is what e says. */
  ghost predicate Maps(ram: Ram, r: nat, vpn: nat, e: Pte) {
    forall va: nat :: va / 4096 == vpn ==>
      match Translate(ram, r, va, 2)
      case None => !Proper(e)
      case Some(w) => Proper(e) && Spells(w, e)
  }

  /** The pages from vpn on are translated to the pages from ppn on, with the given rights. */
  ghost predicate MapsRange(ram: Ram, r: nat, vpn: nat, n: nat, ppn: nat, perm: Flags) {
    forall j :: 0 <= j < n ==> MapsNth(ram, r, vpn, j, ppn, perm)
  }

  ghost predicate MapsNth(ram: Ram, r: nat, vpn: nat, j: nat, ppn: nat, perm: Flags) {
    Maps(ram, r, vpn + j, Pte(ppn + j, perm.(v := true)))
  }

  /** No address in page vpn is translated. */
  ghost predicate Faults(ram: Ram, r: nat, vpn: nat) {
    forall va: nat :: va / 4096 == vpn ==> Translate(ram, r, va, 2) == None
  }

  ghost predicate FaultsRange(ram: Ram, r: nat, vpn: nat, n: nat) {
    forall v :: vpn <= v < vpn + n ==> Faults(ram, r, v)
  }

  lemma Halve(x: nat, b: bool)
    ensures var w := 2 * x + if b then 1 else 0; w / 2 == x && (w % 2 == 1 <==> b)
  {
  }

  lemma Halves(w: nat)
    ensures w / 4 == w / 2 / 2 && w / 8 == w / 2 / 2 / 2 && w / 16 == w / 2 / 2 / 2 / 2
    ensures w / 32 == w / 2 / 2 / 2 / 2 / 2 && w / 1024 == w / 32 / 32
  {
  }

  /** The word of an entry has the layout that the hardware wants. */
  lemma EncodeSpells(e: Pte)
    ensures Spells(Encode(e), e)
  {
    var w, f := Encode(e), e.flags;
    var u := 2 * (e.ppn * 32) + if f.u then 1 else 0;
    var x := 2 * u + if f.x then 1 else 0;
    var y := 2 * x + if f.w then 1 else 0;
    var z := 2 * y + if f.r then 1 else 0;
    assert w == 2 * z + if f.v then 1 else 0;
    Halves(w);
    Halve(z, f.v);
    Halve(y, f.r);
    Halve(x, f.w);
    Halve(u, f.x);
    Halve(e.ppn * 32, f.u);
  }

  /** The index that walk() takes at a level is the one in the address. */
  lemma IndexOf(va: nat, level: nat)
    requires level <= 2
    ensures Px(level, va / 4096) ==
            va / (if level == 2 then 0x4000_0000 else if level == 1 then 0x20_0000 else 0x1000) % 512
    ensures Px(level, va / 4096) < ENTRIES
  {
    var v := va / 4096;
    assert v / 512 == va / 0x20_0000;
    assert v / 262144 == va / 0x4000_0000;
  }
}
