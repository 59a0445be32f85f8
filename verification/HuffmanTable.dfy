/** The Huffman code of Appendix B of RFC 7541: 256 octets and the end-of-string symbol,
    each with its length and its code word left-justified in 32 bits.

    The proofs about the table go through the binary tree of the code. One sweep over the
    tree shows that the leaf reached by a path is the symbol with that code word; since the
    tree has 257 leaves, every symbol is one of them. Prefix-freeness and completeness are
    then facts about walking a tree. The tree is cut where the verifier's evaluation of it
    would get too deep. */
module HuffmanTable {
  import opened HuffmanCode

  function TableEntry(sym: nat): HuffmanSym {
    if sym < 256 then
      if sym < 128 then
        if sym < 64 then
          if sym < 32 then
            if sym < 16 then
              if sym < 8 then
                if sym == 0 then HuffmanSym(13, 0xffc00000) else if sym == 1 then HuffmanSym(23, 0xffffb000) else
                if sym == 2 then HuffmanSym(28, 0xfffffe20) else if sym == 3 then HuffmanSym(28, 0xfffffe30) else
                if sym == 4 then HuffmanSym(28, 0xfffffe40) else if sym == 5 then HuffmanSym(28, 0xfffffe50) else
                if sym == 6 then HuffmanSym(28, 0xfffffe60) else HuffmanSym(28, 0xfffffe70)
              else
                if sym == 8 then HuffmanSym(28, 0xfffffe80) else if sym == 9 then HuffmanSym(24, 0xffffea00) else
                if sym == 10 then HuffmanSym(30, 0xfffffff0) else if sym == 11 then HuffmanSym(28, 0xfffffe90) else
                if sym == 12 then HuffmanSym(28, 0xfffffea0) else if sym == 13 then HuffmanSym(30, 0xfffffff4) else
                if sym == 14 then HuffmanSym(28, 0xfffffeb0) else HuffmanSym(28, 0xfffffec0)
            else
              if sym < 24 then
                if sym == 16 then HuffmanSym(28, 0xfffffed0) else if sym == 17 then HuffmanSym(28, 0xfffffee0) else
                if sym == 18 then HuffmanSym(28, 0xfffffef0) else if sym == 19 then HuffmanSym(28, 0xffffff00) else
                if sym == 20 then HuffmanSym(28, 0xffffff10) else if sym == 21 then HuffmanSym(28, 0xffffff20) else
                if sym == 22 then HuffmanSym(30, 0xfffffff8) else HuffmanSym(28, 0xffffff30)
              else
                if sym == 24 then HuffmanSym(28, 0xffffff40) else if sym == 25 then HuffmanSym(28, 0xffffff50) else
                if sym == 26 then HuffmanSym(28, 0xffffff60) else if sym == 27 then HuffmanSym(28, 0xffffff70) else
                if sym == 28 then HuffmanSym(28, 0xffffff80) else if sym == 29 then HuffmanSym(28, 0xffffff90) else
                if sym == 30 then HuffmanSym(28, 0xffffffa0) else HuffmanSym(28, 0xffffffb0)
          else
            if sym < 48 then
              if sym < 40 then
                if sym == 32 then HuffmanSym(6, 0x50000000) else if sym == 33 then HuffmanSym(10, 0xfe000000) else
                if sym == 34 then HuffmanSym(10, 0xfe400000) else if sym == 35 then HuffmanSym(12, 0xffa00000) else
                if sym == 36 then HuffmanSym(13, 0xffc80000) else if sym == 37 then HuffmanSym(6, 0x54000000) else
                if sym == 38 then HuffmanSym(8, 0xf8000000) else HuffmanSym(11, 0xff400000)
              else
                if sym == 40 then HuffmanSym(10, 0xfe800000) else if sym == 41 then HuffmanSym(10, 0xfec00000) else
                if sym == 42 then HuffmanSym(8, 0xf9000000) else if sym == 43 then HuffmanSym(11, 0xff600000) else
                if sym == 44 then HuffmanSym(8, 0xfa000000) else if sym == 45 then HuffmanSym(6, 0x58000000) else
                if sym == 46 then HuffmanSym(6, 0x5c000000) else HuffmanSym(6, 0x60000000)
            else
              if sym < 56 then
                if sym == 48 then HuffmanSym(5, 0x0) else if sym == 49 then HuffmanSym(5, 0x8000000) else
                if sym == 50 then HuffmanSym(5, 0x10000000) else if sym == 51 then HuffmanSym(6, 0x64000000) else
                if sym == 52 then HuffmanSym(6, 0x68000000) else if sym == 53 then HuffmanSym(6, 0x6c000000) else
                if sym == 54 then HuffmanSym(6, 0x70000000) else HuffmanSym(6, 0x74000000)
              else
                if sym == 56 then HuffmanSym(6, 0x78000000) else if sym == 57 then HuffmanSym(6, 0x7c000000) else
                if sym == 58 then HuffmanSym(7, 0xb8000000) else if sym == 59 then HuffmanSym(8, 0xfb000000) else
                if sym == 60 then HuffmanSym(15, 0xfff80000) else if sym == 61 then HuffmanSym(6, 0x80000000) else
                if sym == 62 then HuffmanSym(12, 0xffb00000) else HuffmanSym(10, 0xff000000)
        else
          if sym < 96 then
            if sym < 80 then
              if sym < 72 then
                if sym == 64 then HuffmanSym(13, 0xffd00000) else if sym == 65 then HuffmanSym(6, 0x84000000) else
                if sym == 66 then HuffmanSym(7, 0xba000000) else if sym == 67 then HuffmanSym(7, 0xbc000000) else
                if sym == 68 then HuffmanSym(7, 0xbe000000) else if sym == 69 then HuffmanSym(7, 0xc0000000) else
                if sym == 70 then HuffmanSym(7, 0xc2000000) else HuffmanSym(7, 0xc4000000)
              else
                if sym == 72 then HuffmanSym(7, 0xc6000000) else if sym == 73 then HuffmanSym(7, 0xc8000000) else
                if sym == 74 then HuffmanSym(7, 0xca000000) else if sym == 75 then HuffmanSym(7, 0xcc000000) else
                if sym == 76 then HuffmanSym(7, 0xce000000) else if sym == 77 then HuffmanSym(7, 0xd0000000) else
                if sym == 78 then HuffmanSym(7, 0xd2000000) else HuffmanSym(7, 0xd4000000)
            else
              if sym < 88 then
                if sym == 80 then HuffmanSym(7, 0xd6000000) else if sym == 81 then HuffmanSym(7, 0xd8000000) else
                if sym == 82 then HuffmanSym(7, 0xda000000) else if sym == 83 then HuffmanSym(7, 0xdc000000) else
                if sym == 84 then HuffmanSym(7, 0xde000000) else if sym == 85 then HuffmanSym(7, 0xe0000000) else
                if sym == 86 then HuffmanSym(7, 0xe2000000) else HuffmanSym(7, 0xe4000000)
              else
                if sym == 88 then HuffmanSym(8, 0xfc000000) else if sym == 89 then HuffmanSym(7, 0xe6000000) else
                if sym == 90 then HuffmanSym(8, 0xfd000000) else if sym == 91 then HuffmanSym(13, 0xffd80000) else
                if sym == 92 then HuffmanSym(19, 0xfffe0000) else if sym == 93 then HuffmanSym(13, 0xffe00000) else
                if sym == 94 then HuffmanSym(14, 0xfff00000) else HuffmanSym(6, 0x88000000)
          else
            if sym < 112 then
              if sym < 104 then
                if sym == 96 then HuffmanSym(15, 0xfffa0000) else if sym == 97 then HuffmanSym(5, 0x18000000) else
                if sym == 98 then HuffmanSym(6, 0x8c000000) else if sym == 99 then HuffmanSym(5, 0x20000000) else
                if sym == 100 then HuffmanSym(6, 0x90000000) else if sym == 101 then HuffmanSym(5, 0x28000000) else
                if sym == 102 then HuffmanSym(6, 0x94000000) else HuffmanSym(6, 0x98000000)
              else
                if sym == 104 then HuffmanSym(6, 0x9c000000) else if sym == 105 then HuffmanSym(5, 0x30000000) else
                if sym == 106 then HuffmanSym(7, 0xe8000000) else if sym == 107 then HuffmanSym(7, 0xea000000) else
                if sym == 108 then HuffmanSym(6, 0xa0000000) else if sym == 109 then HuffmanSym(6, 0xa4000000) else
                if sym == 110 then HuffmanSym(6, 0xa8000000) else HuffmanSym(5, 0x38000000)
            else
              if sym < 120 then
                if sym == 112 then HuffmanSym(6, 0xac000000) else if sym == 113 then HuffmanSym(7, 0xec000000) else
                if sym == 114 then HuffmanSym(6, 0xb0000000) else if sym == 115 then HuffmanSym(5, 0x40000000) else
                if sym == 116 then HuffmanSym(5, 0x48000000) else if sym == 117 then HuffmanSym(6, 0xb4000000) else
                if sym == 118 then HuffmanSym(7, 0xee000000) else HuffmanSym(7, 0xf0000000)
              else
                if sym == 120 then HuffmanSym(7, 0xf2000000) else if sym == 121 then HuffmanSym(7, 0xf4000000) else
                if sym == 122 then HuffmanSym(7, 0xf6000000) else if sym == 123 then HuffmanSym(15, 0xfffc0000) else
                if sym == 124 then HuffmanSym(11, 0xff800000) else if sym == 125 then HuffmanSym(14, 0xfff40000) else
                if sym == 126 then HuffmanSym(13, 0xffe80000) else HuffmanSym(28, 0xffffffc0)
      else
        if sym < 192 then
          if sym < 160 then
            if sym < 144 then
              if sym < 136 then
                if sym == 128 then HuffmanSym(20, 0xfffe6000) else if sym == 129 then HuffmanSym(22, 0xffff4800) else
                if sym == 130 then HuffmanSym(20, 0xfffe7000) else if sym == 131 then HuffmanSym(20, 0xfffe8000) else
                if sym == 132 then HuffmanSym(22, 0xffff4c00) else if sym == 133 then HuffmanSym(22, 0xffff5000) else
                if sym == 134 then HuffmanSym(22, 0xffff5400) else HuffmanSym(23, 0xffffb200)
              else
                if sym == 136 then HuffmanSym(22, 0xffff5800) else if sym == 137 then HuffmanSym(23, 0xffffb400) else
                if sym == 138 then HuffmanSym(23, 0xffffb600) else if sym == 139 then HuffmanSym(23, 0xffffb800) else
                if sym == 140 then HuffmanSym(23, 0xffffba00) else if sym == 141 then HuffmanSym(23, 0xffffbc00) else
                if sym == 142 then HuffmanSym(24, 0xffffeb00) else HuffmanSym(23, 0xffffbe00)
            else
              if sym < 152 then
                if sym == 144 then HuffmanSym(24, 0xffffec00) else if sym == 145 then HuffmanSym(24, 0xffffed00) else
                if sym == 146 then HuffmanSym(22, 0xffff5c00) else if sym == 147 then HuffmanSym(23, 0xffffc000) else
                if sym == 148 then HuffmanSym(24, 0xffffee00) else if sym == 149 then HuffmanSym(23, 0xffffc200) else
                if sym == 150 then HuffmanSym(23, 0xffffc400) else HuffmanSym(23, 0xffffc600)
              else
                if sym == 152 then HuffmanSym(23, 0xffffc800) else if sym == 153 then HuffmanSym(21, 0xfffee000) else
                if sym == 154 then HuffmanSym(22, 0xffff6000) else if sym == 155 then HuffmanSym(23, 0xffffca00) else
                if sym == 156 then HuffmanSym(22, 0xffff6400) else if sym == 157 then HuffmanSym(23, 0xffffcc00) else
                if sym == 158 then HuffmanSym(23, 0xffffce00) else HuffmanSym(24, 0xffffef00)
          else
            if sym < 176 then
              if sym < 168 then
                if sym == 160 then HuffmanSym(22, 0xffff6800) else if sym == 161 then HuffmanSym(21, 0xfffee800) else
                if sym == 162 then HuffmanSym(20, 0xfffe9000) else if sym == 163 then HuffmanSym(22, 0xffff6c00) else
                if sym == 164 then HuffmanSym(22, 0xffff7000) else if sym == 165 then HuffmanSym(23, 0xffffd000) else
                if sym == 166 then HuffmanSym(23, 0xffffd200) else HuffmanSym(21, 0xfffef000)
              else
                if sym == 168 then HuffmanSym(23, 0xffffd400) else if sym == 169 then HuffmanSym(22, 0xffff7400) else
                if sym == 170 then HuffmanSym(22, 0xffff7800) else if sym == 171 then HuffmanSym(24, 0xfffff000) else
                if sym == 172 then HuffmanSym(21, 0xfffef800) else if sym == 173 then HuffmanSym(22, 0xffff7c00) else
                if sym == 174 then HuffmanSym(23, 0xffffd600) else HuffmanSym(23, 0xffffd800)
            else
              if sym < 184 then
                if sym == 176 then HuffmanSym(21, 0xffff0000) else if sym == 177 then HuffmanSym(21, 0xffff0800) else
                if sym == 178 then HuffmanSym(22, 0xffff8000) else if sym == 179 then HuffmanSym(21, 0xffff1000) else
                if sym == 180 then HuffmanSym(23, 0xffffda00) else if sym == 181 then HuffmanSym(22, 0xffff8400) else
                if sym == 182 then HuffmanSym(23, 0xffffdc00) else HuffmanSym(23, 0xffffde00)
              else
                if sym == 184 then HuffmanSym(20, 0xfffea000) else if sym == 185 then HuffmanSym(22, 0xffff8800) else
                if sym == 186 then HuffmanSym(22, 0xffff8c00) else if sym == 187 then HuffmanSym(22, 0xffff9000) else
                if sym == 188 then HuffmanSym(23, 0xffffe000) else if sym == 189 then HuffmanSym(22, 0xffff9400) else
                if sym == 190 then HuffmanSym(22, 0xffff9800) else HuffmanSym(23, 0xffffe200)
        else
          if sym < 224 then
            if sym < 208 then
              if sym < 200 then
                if sym == 192 then HuffmanSym(26, 0xfffff800) else if sym == 193 then HuffmanSym(26, 0xfffff840) else
                if sym == 194 then HuffmanSym(20, 0xfffeb000) else if sym == 195 then HuffmanSym(19, 0xfffe2000) else
                if sym == 196 then HuffmanSym(22, 0xffff9c00) else if sym == 197 then HuffmanSym(23, 0xffffe400) else
                if sym == 198 then HuffmanSym(22, 0xffffa000) else HuffmanSym(25, 0xfffff600)
              else
                if sym == 200 then HuffmanSym(26, 0xfffff880) else if sym == 201 then HuffmanSym(26, 0xfffff8c0) else
                if sym == 202 then HuffmanSym(26, 0xfffff900) else if sym == 203 then HuffmanSym(27, 0xfffffbc0) else
                if sym == 204 then HuffmanSym(27, 0xfffffbe0) else if sym == 205 then HuffmanSym(26, 0xfffff940) else
                if sym == 206 then HuffmanSym(24, 0xfffff100) else HuffmanSym(25, 0xfffff680)
            else
              if sym < 216 then
                if sym == 208 then HuffmanSym(19, 0xfffe4000) else if sym == 209 then HuffmanSym(21, 0xffff1800) else
                if sym == 210 then HuffmanSym(26, 0xfffff980) else if sym == 211 then HuffmanSym(27, 0xfffffc00) else
                if sym == 212 then HuffmanSym(27, 0xfffffc20) else if sym == 213 then HuffmanSym(26, 0xfffff9c0) else
                if sym == 214 then HuffmanSym(27, 0xfffffc40) else HuffmanSym(24, 0xfffff200)
              else
                if sym == 216 then HuffmanSym(21, 0xffff2000) else if sym == 217 then HuffmanSym(21, 0xffff2800) else
                if sym == 218 then HuffmanSym(26, 0xfffffa00) else if sym == 219 then HuffmanSym(26, 0xfffffa40) else
                if sym == 220 then HuffmanSym(28, 0xffffffd0) else if sym == 221 then HuffmanSym(27, 0xfffffc60) else
                if sym == 222 then HuffmanSym(27, 0xfffffc80) else HuffmanSym(27, 0xfffffca0)
          else
            if sym < 240 then
              if sym < 232 then
                if sym == 224 then HuffmanSym(20, 0xfffec000) else if sym == 225 then HuffmanSym(24, 0xfffff300) else
                if sym == 226 then HuffmanSym(20, 0xfffed000) else if sym == 227 then HuffmanSym(21, 0xffff3000) else
                if sym == 228 then HuffmanSym(22, 0xffffa400) else if sym == 229 then HuffmanSym(21, 0xffff3800) else
                if sym == 230 then HuffmanSym(21, 0xffff4000) else HuffmanSym(23, 0xffffe600)
              else
                if sym == 232 then HuffmanSym(22, 0xffffa800) else if sym == 233 then HuffmanSym(22, 0xffffac00) else
                if sym == 234 then HuffmanSym(25, 0xfffff700) else if sym == 235 then HuffmanSym(25, 0xfffff780) else
                if sym == 236 then HuffmanSym(24, 0xfffff400) else if sym == 237 then HuffmanSym(24, 0xfffff500) else
                if sym == 238 then HuffmanSym(26, 0xfffffa80) else HuffmanSym(23, 0xffffe800)
            else
              if sym < 248 then
                if sym == 240 then HuffmanSym(26, 0xfffffac0) else if sym == 241 then HuffmanSym(27, 0xfffffcc0) else
                if sym == 242 then HuffmanSym(26, 0xfffffb00) else if sym == 243 then HuffmanSym(26, 0xfffffb40) else
                if sym == 244 then HuffmanSym(27, 0xfffffce0) else if sym == 245 then HuffmanSym(27, 0xfffffd00) else
                if sym == 246 then HuffmanSym(27, 0xfffffd20) else HuffmanSym(27, 0xfffffd40)
              else
                if sym == 248 then HuffmanSym(27, 0xfffffd60) else if sym == 249 then HuffmanSym(28, 0xffffffe0) else
                if sym == 250 then HuffmanSym(27, 0xfffffd80) else if sym == 251 then HuffmanSym(27, 0xfffffda0) else
                if sym == 252 then HuffmanSym(27, 0xfffffdc0) else if sym == 253 then HuffmanSym(27, 0xfffffde0) else
                if sym == 254 then HuffmanSym(27, 0xfffffe00) else HuffmanSym(26, 0xfffffb80)
    else
      HuffmanSym(30, 0xfffffffc)
  }

  datatype CodeTree = Leaf(sym: nat) | Node(zero: CodeTree, one: CodeTree)

  function Size(t: CodeTree): nat {
    match t
    case Leaf(_) => 1
    case Node(l, r) => Size(l) + Size(r)
  }

  /** Where a subtree hangs: its depth, and the 32-bit words `code` up to `code + width`
      that start with the path to it. */
  datatype Place = Place(depth: nat, code: nat, width: nat)

  function ZeroSide(p: Place): Place {
    Place(p.depth + 1, p.code, p.width / 2)
  }

  function OneSide(p: Place): Place {
    Place(p.depth + 1, p.code + p.width / 2, p.width / 2)
  }

  /** The table puts every symbol of the subtree where the subtree does. */
  predicate Agrees(t: CodeTree, p: Place) {
    match t
    case Leaf(s) => s <= 256 && 5 <= p.depth <= 30 && TableEntry(s) == HuffmanSym(p.depth, p.code)
    case Node(l, r) => Agrees(l, ZeroSide(p)) && Agrees(r, OneSide(p))
  }

  /** Two subtrees side by side. */
  lemma Graft(l: CodeTree, r: CodeTree, p: Place) returns (t: CodeTree)
    requires Agrees(l, ZeroSide(p)) && Agrees(r, OneSide(p))
    ensures Agrees(t, p) && Size(t) == Size(l) + Size(r)
  {
    t := Node(l, r);
  }

  lemma Subtree0() returns (t: CodeTree)
    ensures Agrees(t, Place(2, 0x0, 0x40000000)) && Size(t) == 8
  {
    t := Node(Node(Node(Leaf(48), Leaf(49)), Node(Leaf(50), Leaf(97))), Node(Node(Leaf(99),
      Leaf(101)), Node(Leaf(105), Leaf(111))));
  }

  lemma Subtree1() returns (t: CodeTree)
    ensures Agrees(t, Place(3, 0x40000000, 0x20000000)) && Size(t) == 6
  {
    t := Node(Node(Leaf(115), Leaf(116)), Node(Node(Leaf(32), Leaf(37)), Node(Leaf(45), Leaf(46))));
  }

  lemma Subtree2() returns (t: CodeTree)
    ensures Agrees(t, Place(3, 0x60000000, 0x20000000)) && Size(t) == 8
  {
    t := Node(Node(Node(Leaf(47), Leaf(51)), Node(Leaf(52), Leaf(53))), Node(Node(Leaf(54),
      Leaf(55)), Node(Leaf(56), Leaf(57))));
  }

  lemma Subtree3() returns (t: CodeTree)
    ensures Agrees(t, Place(3, 0x80000000, 0x20000000)) && Size(t) == 8
  {
    t := Node(Node(Node(Leaf(61), Leaf(65)), Node(Leaf(95), Leaf(98))), Node(Node(Leaf(100),
      Leaf(102)), Node(Leaf(103), Leaf(104))));
  }

  lemma Subtree4() returns (t: CodeTree)
    ensures Agrees(t, Place(4, 0xa0000000, 0x10000000)) && Size(t) == 4
  {
    t := Node(Node(Leaf(108), Leaf(109)), Node(Leaf(110), Leaf(112)));
  }

  lemma Subtree5() returns (t: CodeTree)
    ensures Agrees(t, Place(4, 0xb0000000, 0x10000000)) && Size(t) == 6
  {
    t := Node(Node(Leaf(114), Leaf(117)), Node(Node(Leaf(58), Leaf(66)), Node(Leaf(67), Leaf(68))));
  }

  lemma Subtree6() returns (t: CodeTree)
    ensures Agrees(t, Place(4, 0xc0000000, 0x10000000)) && Size(t) == 8
  {
    t := Node(Node(Node(Leaf(69), Leaf(70)), Node(Leaf(71), Leaf(72))), Node(Node(Leaf(73),
      Leaf(74)), Node(Leaf(75), Leaf(76))));
  }

  lemma Subtree7() returns (t: CodeTree)
    ensures Agrees(t, Place(4, 0xd0000000, 0x10000000)) && Size(t) == 8
  {
    t := Node(Node(Node(Leaf(77), Leaf(78)), Node(Leaf(79), Leaf(80))), Node(Node(Leaf(81),
      Leaf(82)), Node(Leaf(83), Leaf(84))));
  }

  lemma Subtree8() returns (t: CodeTree)
    ensures Agrees(t, Place(4, 0xe0000000, 0x10000000)) && Size(t) == 8
  {
    t := Node(Node(Node(Leaf(85), Leaf(86)), Node(Leaf(87), Leaf(89))), Node(Node(Leaf(106),
      Leaf(107)), Node(Leaf(113), Leaf(118))));
  }

  lemma Subtree9() returns (t: CodeTree)
    ensures Agrees(t, Place(5, 0xf0000000, 0x8000000)) && Size(t) == 4
  {
    t := Node(Node(Leaf(119), Leaf(120)), Node(Leaf(121), Leaf(122)));
  }

  lemma Subtree10() returns (t: CodeTree)
    ensures Agrees(t, Place(6, 0xf8000000, 0x4000000)) && Size(t) == 4
  {
    t := Node(Node(Leaf(38), Leaf(42)), Node(Leaf(44), Leaf(59)));
  }

  lemma Subtree11() returns (t: CodeTree)
    ensures Agrees(t, Place(7, 0xfc000000, 0x2000000)) && Size(t) == 2
  {
    t := Node(Leaf(88), Leaf(90));
  }

  lemma Subtree12() returns (t: CodeTree)
    ensures Agrees(t, Place(8, 0xfe000000, 0x1000000)) && Size(t) == 4
  {
    t := Node(Node(Leaf(33), Leaf(34)), Node(Leaf(40), Leaf(41)));
  }

  lemma Subtree13() returns (t: CodeTree)
    ensures Agrees(t, Place(9, 0xff000000, 0x800000)) && Size(t) == 3
  {
    t := Node(Leaf(63), Node(Leaf(39), Leaf(43)));
  }

  lemma Subtree14() returns (t: CodeTree)
    ensures Agrees(t, Place(10, 0xff800000, 0x400000)) && Size(t) == 3
  {
    t := Node(Leaf(124), Node(Leaf(35), Leaf(62)));
  }

  lemma Subtree15() returns (t: CodeTree)
    ensures Agrees(t, Place(11, 0xffc00000, 0x200000)) && Size(t) == 4
  {
    t := Node(Node(Leaf(0), Leaf(36)), Node(Leaf(64), Leaf(91)));
  }

  lemma Subtree16() returns (t: CodeTree)
    ensures Agrees(t, Place(12, 0xffe00000, 0x100000)) && Size(t) == 2
  {
    t := Node(Leaf(93), Leaf(126));
  }

  lemma Subtree17() returns (t: CodeTree)
    ensures Agrees(t, Place(13, 0xfff00000, 0x80000)) && Size(t) == 2
  {
    t := Node(Leaf(94), Leaf(125));
  }

  lemma Subtree18() returns (t: CodeTree)
    ensures Agrees(t, Place(14, 0xfff80000, 0x40000)) && Size(t) == 2
  {
    t := Node(Leaf(60), Leaf(96));
  }

  lemma Subtree19() returns (t: CodeTree)
    ensures Agrees(t, Place(17, 0xfffe0000, 0x8000)) && Size(t) == 5
  {
    t := Node(Node(Leaf(92), Leaf(195)), Node(Leaf(208), Node(Leaf(128), Leaf(130))));
  }

  lemma Subtree20() returns (t: CodeTree)
    ensures Agrees(t, Place(18, 0xfffe8000, 0x4000)) && Size(t) == 4
  {
    t := Node(Node(Leaf(131), Leaf(162)), Node(Leaf(184), Leaf(194)));
  }

  lemma Subtree21() returns (t: CodeTree)
    ensures Agrees(t, Place(18, 0xfffec000, 0x4000)) && Size(t) == 6
  {
    t := Node(Node(Leaf(224), Leaf(226)), Node(Node(Leaf(153), Leaf(161)), Node(Leaf(167),
      Leaf(172))));
  }

  lemma Subtree22() returns (t: CodeTree)
    ensures Agrees(t, Place(18, 0xffff0000, 0x4000)) && Size(t) == 8
  {
    t := Node(Node(Node(Leaf(176), Leaf(177)), Node(Leaf(179), Leaf(209))), Node(Node(Leaf(216),
      Leaf(217)), Node(Leaf(227), Leaf(229))));
  }

  lemma Subtree23() returns (t: CodeTree)
    ensures Agrees(t, Place(19, 0xffff4000, 0x2000)) && Size(t) == 7
  {
    t := Node(Node(Leaf(230), Node(Leaf(129), Leaf(132))), Node(Node(Leaf(133), Leaf(134)),
      Node(Leaf(136), Leaf(146))));
  }

  lemma Subtree24() returns (t: CodeTree)
    ensures Agrees(t, Place(19, 0xffff6000, 0x2000)) && Size(t) == 8
  {
    t := Node(Node(Node(Leaf(154), Leaf(156)), Node(Leaf(160), Leaf(163))), Node(Node(Leaf(164),
      Leaf(169)), Node(Leaf(170), Leaf(173))));
  }

  lemma Subtree25() returns (t: CodeTree)
    ensures Agrees(t, Place(19, 0xffff8000, 0x2000)) && Size(t) == 8
  {
    t := Node(Node(Node(Leaf(178), Leaf(181)), Node(Leaf(185), Leaf(186))), Node(Node(Leaf(187),
      Leaf(189)), Node(Leaf(190), Leaf(196))));
  }

  lemma Subtree26() returns (t: CodeTree)
    ensures Agrees(t, Place(20, 0xffffa000, 0x1000)) && Size(t) == 4
  {
    t := Node(Node(Leaf(198), Leaf(228)), Node(Leaf(232), Leaf(233)));
  }

  lemma Subtree27() returns (t: CodeTree)
    ensures Agrees(t, Place(20, 0xffffb000, 0x1000)) && Size(t) == 8
  {
    t := Node(Node(Node(Leaf(1), Leaf(135)), Node(Leaf(137), Leaf(138))), Node(Node(Leaf(139),
      Leaf(140)), Node(Leaf(141), Leaf(143))));
  }

  lemma Subtree28() returns (t: CodeTree)
    ensures Agrees(t, Place(20, 0xffffc000, 0x1000)) && Size(t) == 8
  {
    t := Node(Node(Node(Leaf(147), Leaf(149)), Node(Leaf(150), Leaf(151))), Node(Node(Leaf(152),
      Leaf(155)), Node(Leaf(157), Leaf(158))));
  }

  lemma Subtree29() returns (t: CodeTree)
    ensures Agrees(t, Place(20, 0xffffd000, 0x1000)) && Size(t) == 8
  {
    t := Node(Node(Node(Leaf(165), Leaf(166)), Node(Leaf(168), Leaf(174))), Node(Node(Leaf(175),
      Leaf(180)), Node(Leaf(182), Leaf(183))));
  }

  lemma Subtree30() returns (t: CodeTree)
    ensures Agrees(t, Place(21, 0xffffe000, 0x800)) && Size(t) == 4
  {
    t := Node(Node(Leaf(188), Leaf(191)), Node(Leaf(197), Leaf(231)));
  }

  lemma Subtree31() returns (t: CodeTree)
    ensures Agrees(t, Place(21, 0xffffe800, 0x800)) && Size(t) == 7
  {
    t := Node(Node(Leaf(239), Node(Leaf(9), Leaf(142))), Node(Node(Leaf(144), Leaf(145)),
      Node(Leaf(148), Leaf(159))));
  }

  lemma Subtree32() returns (t: CodeTree)
    ensures Agrees(t, Place(22, 0xfffff000, 0x400)) && Size(t) == 4
  {
    t := Node(Node(Leaf(171), Leaf(206)), Node(Leaf(215), Leaf(225)));
  }

  lemma Subtree33() returns (t: CodeTree)
    ensures Agrees(t, Place(22, 0xfffff400, 0x400)) && Size(t) == 6
  {
    t := Node(Node(Leaf(236), Leaf(237)), Node(Node(Leaf(199), Leaf(207)), Node(Leaf(234),
      Leaf(235))));
  }

  lemma Subtree34() returns (t: CodeTree)
    ensures Agrees(t, Place(23, 0xfffff800, 0x200)) && Size(t) == 8
  {
    t := Node(Node(Node(Leaf(192), Leaf(193)), Node(Leaf(200), Leaf(201))), Node(Node(Leaf(202),
      Leaf(205)), Node(Leaf(210), Leaf(213))));
  }

  lemma Subtree35() returns (t: CodeTree)
    ensures Agrees(t, Place(24, 0xfffffa00, 0x100)) && Size(t) == 4
  {
    t := Node(Node(Leaf(218), Leaf(219)), Node(Leaf(238), Leaf(240)));
  }

  lemma Subtree36() returns (t: CodeTree)
    ensures Agrees(t, Place(24, 0xfffffb00, 0x100)) && Size(t) == 5
  {
    t := Node(Node(Leaf(242), Leaf(243)), Node(Leaf(255), Node(Leaf(203), Leaf(204))));
  }

  lemma Subtree37() returns (t: CodeTree)
    ensures Agrees(t, Place(24, 0xfffffc00, 0x100)) && Size(t) == 8
  {
    t := Node(Node(Node(Leaf(211), Leaf(212)), Node(Leaf(214), Leaf(221))), Node(Node(Leaf(222),
      Leaf(223)), Node(Leaf(241), Leaf(244))));
  }

  lemma Subtree38() returns (t: CodeTree)
    ensures Agrees(t, Place(24, 0xfffffd00, 0x100)) && Size(t) == 8
  {
    t := Node(Node(Node(Leaf(245), Leaf(246)), Node(Leaf(247), Leaf(248))), Node(Node(Leaf(250),
      Leaf(251)), Node(Leaf(252), Leaf(253))));
  }

  lemma Subtree39() returns (t: CodeTree)
    ensures Agrees(t, Place(25, 0xfffffe00, 0x80)) && Size(t) == 7
  {
    t := Node(Node(Leaf(254), Node(Leaf(2), Leaf(3))), Node(Node(Leaf(4), Leaf(5)), Node(Leaf(6),
      Leaf(7))));
  }

  lemma Subtree40() returns (t: CodeTree)
    ensures Agrees(t, Place(25, 0xfffffe80, 0x80)) && Size(t) == 8
  {
    t := Node(Node(Node(Leaf(8), Leaf(11)), Node(Leaf(12), Leaf(14))), Node(Node(Leaf(15),
      Leaf(16)), Node(Leaf(17), Leaf(18))));
  }

  lemma Subtree41() returns (t: CodeTree)
    ensures Agrees(t, Place(25, 0xffffff00, 0x80)) && Size(t) == 8
  {
    t := Node(Node(Node(Leaf(19), Leaf(20)), Node(Leaf(21), Leaf(23))), Node(Node(Leaf(24),
      Leaf(25)), Node(Leaf(26), Leaf(27))));
  }

  lemma Subtree42() returns (t: CodeTree)
    ensures Agrees(t, Place(26, 0xffffff80, 0x40)) && Size(t) == 4
  {
    t := Node(Node(Leaf(28), Leaf(29)), Node(Leaf(30), Leaf(31)));
  }

  lemma Subtree43() returns (t: CodeTree)
    ensures Agrees(t, Place(26, 0xffffffc0, 0x40)) && Size(t) == 7
  {
    t := Node(Node(Leaf(127), Leaf(220)), Node(Leaf(249), Node(Node(Leaf(10), Leaf(13)),
      Node(Leaf(22), Leaf(256)))));
  }

  lemma Subtree44() returns (t: CodeTree)
    ensures Agrees(t, Place(23, 0xfffffe00, 0x200)) && Size(t) == 34
  {
    var t56 := Subtree39();
    var t57 := Subtree40();
    var t58 := Graft(t56, t57, Place(24, 0xfffffe00, 0x100));
    var t59 := Subtree41();
    var t60 := Subtree42();
    var t61 := Subtree43();
    var t62 := Graft(t60, t61, Place(25, 0xffffff80, 0x80));
    var t63 := Graft(t59, t62, Place(24, 0xffffff00, 0x100));
    var t64 := Graft(t58, t63, Place(23, 0xfffffe00, 0x200));
    t := t64;
  }

  lemma Subtree45() returns (t: CodeTree)
    ensures Agrees(t, Place(21, 0xfffff800, 0x800)) && Size(t) == 67
  {
    var t48 := Subtree34();
    var t49 := Subtree35();
    var t50 := Subtree36();
    var t51 := Graft(t49, t50, Place(23, 0xfffffa00, 0x200));
    var t52 := Graft(t48, t51, Place(22, 0xfffff800, 0x400));
    var t53 := Subtree37();
    var t54 := Subtree38();
    var t55 := Graft(t53, t54, Place(23, 0xfffffc00, 0x200));
    var t65 := Subtree44();
    var t66 := Graft(t55, t65, Place(22, 0xfffffc00, 0x400));
    var t67 := Graft(t52, t66, Place(21, 0xfffff800, 0x800));
    t := t67;
  }

  lemma Subtree46() returns (t: CodeTree)
    ensures Agrees(t, Place(19, 0xffffe000, 0x2000)) && Size(t) == 88
  {
    var t42 := Subtree30();
    var t43 := Subtree31();
    var t44 := Graft(t42, t43, Place(20, 0xffffe000, 0x1000));
    var t45 := Subtree32();
    var t46 := Subtree33();
    var t47 := Graft(t45, t46, Place(21, 0xfffff000, 0x800));
    var t68 := Subtree45();
    var t69 := Graft(t47, t68, Place(20, 0xfffff000, 0x1000));
    var t70 := Graft(t44, t69, Place(19, 0xffffe000, 0x2000));
    t := t70;
  }

  lemma Subtree47() returns (t: CodeTree)
    ensures Agrees(t, Place(17, 0xffff8000, 0x8000)) && Size(t) == 124
  {
    var t34 := Subtree25();
    var t35 := Subtree26();
    var t36 := Subtree27();
    var t37 := Graft(t35, t36, Place(19, 0xffffa000, 0x2000));
    var t38 := Graft(t34, t37, Place(18, 0xffff8000, 0x4000));
    var t39 := Subtree28();
    var t40 := Subtree29();
    var t41 := Graft(t39, t40, Place(19, 0xffffc000, 0x2000));
    var t71 := Subtree46();
    var t72 := Graft(t41, t71, Place(18, 0xffffc000, 0x4000));
    var t73 := Graft(t38, t72, Place(17, 0xffff8000, 0x8000));
    t := t73;
  }

  lemma Subtree48() returns (t: CodeTree)
    ensures Agrees(t, Place(16, 0xffff0000, 0x10000)) && Size(t) == 147
  {
    var t29 := Subtree22();
    var t30 := Subtree23();
    var t31 := Subtree24();
    var t32 := Graft(t30, t31, Place(18, 0xffff4000, 0x4000));
    var t33 := Graft(t29, t32, Place(17, 0xffff0000, 0x8000));
    var t74 := Subtree47();
    var t75 := Graft(t33, t74, Place(16, 0xffff0000, 0x10000));
    t := t75;
  }

  lemma Subtree49() returns (t: CodeTree)
    ensures Agrees(t, Place(15, 0xfffe0000, 0x20000)) && Size(t) == 162
  {
    var t24 := Subtree19();
    var t25 := Subtree20();
    var t26 := Subtree21();
    var t27 := Graft(t25, t26, Place(17, 0xfffe8000, 0x8000));
    var t28 := Graft(t24, t27, Place(16, 0xfffe0000, 0x10000));
    var t76 := Subtree48();
    var t77 := Graft(t28, t76, Place(15, 0xfffe0000, 0x20000));
    t := t77;
  }

  lemma Subtree50() returns (t: CodeTree)
    ensures Agrees(t, Place(12, 0xfff00000, 0x100000)) && Size(t) == 167
  {
    var t22 := Subtree17();
    var t23 := Subtree18();
    var t78 := Subtree49();
    var t79 := Graft(Leaf(123), t78, Place(14, 0xfffc0000, 0x40000));
    var t80 := Graft(t23, t79, Place(13, 0xfff80000, 0x80000));
    var t81 := Graft(t22, t80, Place(12, 0xfff00000, 0x100000));
    t := t81;
  }

  lemma Subtree51() returns (t: CodeTree)
    ensures Agrees(t, Place(9, 0xff800000, 0x800000)) && Size(t) == 176
  {
    var t19 := Subtree14();
    var t20 := Subtree15();
    var t21 := Subtree16();
    var t82 := Subtree50();
    var t83 := Graft(t21, t82, Place(11, 0xffe00000, 0x200000));
    var t84 := Graft(t20, t83, Place(10, 0xffc00000, 0x400000));
    var t85 := Graft(t19, t84, Place(9, 0xff800000, 0x800000));
    t := t85;
  }

  lemma Subtree52() returns (t: CodeTree)
    ensures Agrees(t, Place(6, 0xfc000000, 0x4000000)) && Size(t) == 185
  {
    var t16 := Subtree11();
    var t17 := Subtree12();
    var t18 := Subtree13();
    var t86 := Subtree51();
    var t87 := Graft(t18, t86, Place(8, 0xff000000, 0x1000000));
    var t88 := Graft(t17, t87, Place(7, 0xfe000000, 0x2000000));
    var t89 := Graft(t16, t88, Place(6, 0xfc000000, 0x4000000));
    t := t89;
  }

  lemma Subtree53() returns (t: CodeTree)
    ensures Agrees(t, Place(3, 0xe0000000, 0x20000000)) && Size(t) == 201
  {
    var t13 := Subtree8();
    var t14 := Subtree9();
    var t15 := Subtree10();
    var t90 := Subtree52();
    var t91 := Graft(t15, t90, Place(5, 0xf8000000, 0x8000000));
    var t92 := Graft(t14, t91, Place(4, 0xf0000000, 0x10000000));
    var t93 := Graft(t13, t92, Place(3, 0xe0000000, 0x20000000));
    t := t93;
  }

  lemma Subtree54() returns (t: CodeTree)
    ensures Agrees(t, Place(1, 0x80000000, 0x80000000)) && Size(t) == 235
  {
    var t5 := Subtree3();
    var t6 := Subtree4();
    var t7 := Subtree5();
    var t8 := Graft(t6, t7, Place(3, 0xa0000000, 0x20000000));
    var t9 := Graft(t5, t8, Place(2, 0x80000000, 0x40000000));
    var t10 := Subtree6();
    var t11 := Subtree7();
    var t12 := Graft(t10, t11, Place(3, 0xc0000000, 0x20000000));
    var t94 := Subtree53();
    var t95 := Graft(t12, t94, Place(2, 0xc0000000, 0x40000000));
    var t96 := Graft(t9, t95, Place(1, 0x80000000, 0x80000000));
    t := t96;
  }

  /** The tree of the whole code. */
  lemma WholeTree() returns (t: CodeTree)
    ensures Agrees(t, Place(0, 0, 0x1_0000_0000)) && Size(t) == 257
  {
    var t0 := Subtree0();
    var t1 := Subtree1();
    var t2 := Subtree2();
    var t3 := Graft(t1, t2, Place(2, 0x40000000, 0x40000000));
    var t4 := Graft(t0, t3, Place(1, 0x0, 0x80000000));
    var t97 := Subtree54();
    var t98 := Graft(t4, t97, Place(0, 0x0, 0x100000000));
    t := t98;
  }
}
