/** The code table of RFC 7541 Appendix B, and the proof that it is prefix-free with an all-ones EOS.

    The code is canonical: the codes of each length are consecutive numbers, and each length starts
    where the previous one stopped, shifted by one bit. */
module HuffmanTable {
  import opened Bits
  import opened Huffman

  /** `(code, bit length)` of a symbol; 256 is EOS. */
  function Entry(sym: nat): (nat, nat)
    requires sym <= EOS
  {
    if sym < 128 then
      if sym < 64 then if sym < 32 then Entry0(sym) else Entry32(sym)
      else if sym < 96 then Entry64(sym) else Entry96(sym)
    else if sym < EOS then
      if sym < 192 then if sym < 160 then Entry128(sym) else Entry160(sym)
      else if sym < 224 then Entry192(sym) else Entry224(sym)
    else (0x3fffffff, 30)
  }

  function Entry0(sym: nat): (nat, nat) {
    match sym
    case 0 => (0x1ff8, 13) case 1 => (0x7fffd8, 23) case 2 => (0xfffffe2, 28) case 3 => (0xfffffe3, 28)
    case 4 => (0xfffffe4, 28) case 5 => (0xfffffe5, 28) case 6 => (0xfffffe6, 28) case 7 => (0xfffffe7, 28)
    case 8 => (0xfffffe8, 28) case 9 => (0xffffea, 24) case 10 => (0x3ffffffc, 30) case 11 => (0xfffffe9, 28)
    case 12 => (0xfffffea, 28) case 13 => (0x3ffffffd, 30) case 14 => (0xfffffeb, 28) case 15 => (0xfffffec, 28)
    case 16 => (0xfffffed, 28) case 17 => (0xfffffee, 28) case 18 => (0xfffffef, 28) case 19 => (0xffffff0, 28)
    case 20 => (0xffffff1, 28) case 21 => (0xffffff2, 28) case 22 => (0x3ffffffe, 30) case 23 => (0xffffff3, 28)
    case 24 => (0xffffff4, 28) case 25 => (0xffffff5, 28) case 26 => (0xffffff6, 28) case 27 => (0xffffff7, 28)
    case 28 => (0xffffff8, 28) case 29 => (0xffffff9, 28) case 30 => (0xffffffa, 28)
    case _ => (0xffffffb, 28)
  }

  function Entry32(sym: nat): (nat, nat) {
    match sym
    case 32 => (0x14, 6) case 33 => (0x3f8, 10) case 34 => (0x3f9, 10) case 35 => (0xffa, 12)
    case 36 => (0x1ff9, 13) case 37 => (0x15, 6) case 38 => (0xf8, 8) case 39 => (0x7fa, 11)
    case 40 => (0x3fa, 10) case 41 => (0x3fb, 10) case 42 => (0xf9, 8) case 43 => (0x7fb, 11)
    case 44 => (0xfa, 8) case 45 => (0x16, 6) case 46 => (0x17, 6) case 47 => (0x18, 6)
    case 48 => (0x0, 5) case 49 => (0x1, 5) case 50 => (0x2, 5) case 51 => (0x19, 6)
    case 52 => (0x1a, 6) case 53 => (0x1b, 6) case 54 => (0x1c, 6) case 55 => (0x1d, 6)
    case 56 => (0x1e, 6) case 57 => (0x1f, 6) case 58 => (0x5c, 7) case 59 => (0xfb, 8)
    case 60 => (0x7ffc, 15) case 61 => (0x20, 6) case 62 => (0xffb, 12)
    case _ => (0x3fc, 10)
  }

  function Entry64(sym: nat): (nat, nat) {
    match sym
    case 64 => (0x1ffa, 13) case 65 => (0x21, 6) case 66 => (0x5d, 7) case 67 => (0x5e, 7)
    case 68 => (0x5f, 7) case 69 => (0x60, 7) case 70 => (0x61, 7) case 71 => (0x62, 7)
    case 72 => (0x63, 7) case 73 => (0x64, 7) case 74 => (0x65, 7) case 75 => (0x66, 7)
    case 76 => (0x67, 7) case 77 => (0x68, 7) case 78 => (0x69, 7) case 79 => (0x6a, 7)
    case 80 => (0x6b, 7) case 81 => (0x6c, 7) case 82 => (0x6d, 7) case 83 => (0x6e, 7)
    case 84 => (0x6f, 7) case 85 => (0x70, 7) case 86 => (0x71, 7) case 87 => (0x72, 7)
    case 88 => (0xfc, 8) case 89 => (0x73, 7) case 90 => (0xfd, 8) case 91 => (0x1ffb, 13)
    case 92 => (0x7fff0, 19) case 93 => (0x1ffc, 13) case 94 => (0x3ffc, 14)
    case _ => (0x22, 6)
  }

  function Entry96(sym: nat): (nat, nat) {
    match sym
    case 96 => (0x7ffd, 15) case 97 => (0x3, 5) case 98 => (0x23, 6) case 99 => (0x4, 5)
    case 100 => (0x24, 6) case 101 => (0x5, 5) case 102 => (0x25, 6) case 103 => (0x26, 6)
    case 104 => (0x27, 6) case 105 => (0x6, 5) case 106 => (0x74, 7) case 107 => (0x75, 7)
    case 108 => (0x28, 6) case 109 => (0x29, 6) case 110 => (0x2a, 6) case 111 => (0x7, 5)
    case 112 => (0x2b, 6) case 113 => (0x76, 7) case 114 => (0x2c, 6) case 115 => (0x8, 5)
    case 116 => (0x9, 5) case 117 => (0x2d, 6) case 118 => (0x77, 7) case 119 => (0x78, 7)
    case 120 => (0x79, 7) case 121 => (0x7a, 7) case 122 => (0x7b, 7) case 123 => (0x7ffe, 15)
    case 124 => (0x7fc, 11) case 125 => (0x3ffd, 14) case 126 => (0x1ffd, 13)
    case _ => (0xffffffc, 28)
  }

  function Entry128(sym: nat): (nat, nat) {
    match sym
    case 128 => (0xfffe6, 20) case 129 => (0x3fffd2, 22) case 130 => (0xfffe7, 20) case 131 => (0xfffe8, 20)
    case 132 => (0x3fffd3, 22) case 133 => (0x3fffd4, 22) case 134 => (0x3fffd5, 22) case 135 => (0x7fffd9, 23)
    case 136 => (0x3fffd6, 22) case 137 => (0x7fffda, 23) case 138 => (0x7fffdb, 23) case 139 => (0x7fffdc, 23)
    case 140 => (0x7fffdd, 23) case 141 => (0x7fffde, 23) case 142 => (0xffffeb, 24) case 143 => (0x7fffdf, 23)
    case 144 => (0xffffec, 24) case 145 => (0xffffed, 24) case 146 => (0x3fffd7, 22) case 147 => (0x7fffe0, 23)
    case 148 => (0xffffee, 24) case 149 => (0x7fffe1, 23) case 150 => (0x7fffe2, 23) case 151 => (0x7fffe3, 23)
    case 152 => (0x7fffe4, 23) case 153 => (0x1fffdc, 21) case 154 => (0x3fffd8, 22) case 155 => (0x7fffe5, 23)
    case 156 => (0x3fffd9, 22) case 157 => (0x7fffe6, 23) case 158 => (0x7fffe7, 23)
    case _ => (0xffffef, 24)
  }

  function Entry160(sym: nat): (nat, nat) {
    match sym
    case 160 => (0x3fffda, 22) case 161 => (0x1fffdd, 21) case 162 => (0xfffe9, 20) case 163 => (0x3fffdb, 22)
    case 164 => (0x3fffdc, 22) case 165 => (0x7fffe8, 23) case 166 => (0x7fffe9, 23) case 167 => (0x1fffde, 21)
    case 168 => (0x7fffea, 23) case 169 => (0x3fffdd, 22) case 170 => (0x3fffde, 22) case 171 => (0xfffff0, 24)
    case 172 => (0x1fffdf, 21) case 173 => (0x3fffdf, 22) case 174 => (0x7fffeb, 23) case 175 => (0x7fffec, 23)
    case 176 => (0x1fffe0, 21) case 177 => (0x1fffe1, 21) case 178 => (0x3fffe0, 22) case 179 => (0x1fffe2, 21)
    case 180 => (0x7fffed, 23) case 181 => (0x3fffe1, 22) case 182 => (0x7fffee, 23) case 183 => (0x7fffef, 23)
    case 184 => (0xfffea, 20) case 185 => (0x3fffe2, 22) case 186 => (0x3fffe3, 22) case 187 => (0x3fffe4, 22)
    case 188 => (0x7ffff0, 23) case 189 => (0x3fffe5, 22) case 190 => (0x3fffe6, 22)
    case _ => (0x7ffff1, 23)
  }

  function Entry192(sym: nat): (nat, nat) {
    match sym
    case 192 => (0x3ffffe0, 26) case 193 => (0x3ffffe1, 26) case 194 => (0xfffeb, 20) case 195 => (0x7fff1, 19)
    case 196 => (0x3fffe7, 22) case 197 => (0x7ffff2, 23) case 198 => (0x3fffe8, 22) case 199 => (0x1ffffec, 25)
    case 200 => (0x3ffffe2, 26) case 201 => (0x3ffffe3, 26) case 202 => (0x3ffffe4, 26) case 203 => (0x7ffffde, 27)
    case 204 => (0x7ffffdf, 27) case 205 => (0x3ffffe5, 26) case 206 => (0xfffff1, 24) case 207 => (0x1ffffed, 25)
    case 208 => (0x7fff2, 19) case 209 => (0x1fffe3, 21) case 210 => (0x3ffffe6, 26) case 211 => (0x7ffffe0, 27)
    case 212 => (0x7ffffe1, 27) case 213 => (0x3ffffe7, 26) case 214 => (0x7ffffe2, 27) case 215 => (0xfffff2, 24)
    case 216 => (0x1fffe4, 21) case 217 => (0x1fffe5, 21) case 218 => (0x3ffffe8, 26) case 219 => (0x3ffffe9, 26)
    case 220 => (0xffffffd, 28) case 221 => (0x7ffffe3, 27) case 222 => (0x7ffffe4, 27)
    case _ => (0x7ffffe5, 27)
  }

  function Entry224(sym: nat): (nat, nat) {
    match sym
    case 224 => (0xfffec, 20) case 225 => (0xfffff3, 24) case 226 => (0xfffed, 20) case 227 => (0x1fffe6, 21)
    case 228 => (0x3fffe9, 22) case 229 => (0x1fffe7, 21) case 230 => (0x1fffe8, 21) case 231 => (0x7ffff3, 23)
    case 232 => (0x3fffea, 22) case 233 => (0x3fffeb, 22) case 234 => (0x1ffffee, 25) case 235 => (0x1ffffef, 25)
    case 236 => (0xfffff4, 24) case 237 => (0xfffff5, 24) case 238 => (0x3ffffea, 26) case 239 => (0x7ffff4, 23)
    case 240 => (0x3ffffeb, 26) case 241 => (0x7ffffe6, 27) case 242 => (0x3ffffec, 26) case 243 => (0x3ffffed, 26)
    case 244 => (0x7ffffe7, 27) case 245 => (0x7ffffe8, 27) case 246 => (0x7ffffe9, 27) case 247 => (0x7ffffea, 27)
    case 248 => (0x7ffffeb, 27) case 249 => (0xffffffe, 28) case 250 => (0x7ffffec, 27) case 251 => (0x7ffffed, 27)
    case 252 => (0x7ffffee, 27) case 253 => (0x7ffffef, 27) case 254 => (0x7fffff0, 27)
    case _ => (0x3ffffee, 26)
  }

  /** How many codes have `len` bits. */
  function CountOfLen(len: nat): nat {
    match len
    case 5 => 10 case 6 => 26 case 7 => 32 case 8 => 6 case 10 => 5 case 11 => 3 case 12 => 2 case 13 => 6
    case 14 => 2 case 15 => 3 case 19 => 3 case 20 => 8 case 21 => 13 case 22 => 26 case 23 => 29 case 24 => 12
    case 25 => 4 case 26 => 15 case 27 => 19 case 28 => 29 case 30 => 4
    case _ => 0
  }

  /** The smallest code of `len` bits, and of no smaller length's continuation. */
  function First(len: nat): nat
    requires 5 <= len <= MAX_LEN
  {
    match len
    case 5 => 0x0 case 6 => 0x14 case 7 => 0x5c case 8 => 0xf8 case 9 => 0x1fc case 10 => 0x3f8
    case 11 => 0x7fa case 12 => 0xffa case 13 => 0x1ff8 case 14 => 0x3ffc case 15 => 0x7ffc case 16 => 0xfffe
    case 17 => 0x1fffc case 18 => 0x3fff8 case 19 => 0x7fff0 case 20 => 0xfffe6 case 21 => 0x1fffdc case 22 => 0x3fffd2
    case 23 => 0x7fffd8 case 24 => 0xffffea case 25 => 0x1ffffec case 26 => 0x3ffffe0 case 27 => 0x7ffffde case 28 => 0xfffffe2
    case 29 => 0x1ffffffe
    case _ => 0x3ffffffc
  }

  /** How many codes are shorter than `len` bits. */
  function Before(len: nat): nat
    requires 5 <= len <= MAX_LEN
  {
    match len
    case 5 => 0 case 6 => 10 case 7 => 36 case 8 => 68 case 9 => 74 case 10 => 74 case 11 => 79 case 12 => 82
    case 13 => 84 case 14 => 90 case 15 => 92 case 16 => 95 case 17 => 95 case 18 => 95 case 19 => 95 case 20 => 98
    case 21 => 106 case 22 => 119 case 23 => 145 case 24 => 174 case 25 => 186 case 26 => 190 case 27 => 205 case 28 => 224
    case 29 => 253
    case _ => 253
  }

  /** The symbols in the order of their codes: the inverse of Entry. */
  function Canonical(rank: nat): nat {
    if rank < 128 then
      if rank < 64 then if rank < 32 then Canonical0(rank) else Canonical32(rank)
      else if rank < 96 then Canonical64(rank) else Canonical96(rank)
    else if rank < 256 then
      if rank < 192 then if rank < 160 then Canonical128(rank) else Canonical160(rank)
      else if rank < 224 then Canonical192(rank) else Canonical224(rank)
    else EOS
  }

  function Canonical0(rank: nat): nat {
    match rank
    case 0 => 48 case 1 => 49 case 2 => 50 case 3 => 97 case 4 => 99 case 5 => 101 case 6 => 105 case 7 => 111
    case 8 => 115 case 9 => 116 case 10 => 32 case 11 => 37 case 12 => 45 case 13 => 46 case 14 => 47 case 15 => 51
    case 16 => 52 case 17 => 53 case 18 => 54 case 19 => 55 case 20 => 56 case 21 => 57 case 22 => 61 case 23 => 65
    case 24 => 95 case 25 => 98 case 26 => 100 case 27 => 102 case 28 => 103 case 29 => 104 case 30 => 108
    case _ => 109
  }

  function Canonical32(rank: nat): nat {
    match rank
    case 32 => 110 case 33 => 112 case 34 => 114 case 35 => 117 case 36 => 58 case 37 => 66 case 38 => 67 case 39 => 68
    case 40 => 69 case 41 => 70 case 42 => 71 case 43 => 72 case 44 => 73 case 45 => 74 case 46 => 75 case 47 => 76
    case 48 => 77 case 49 => 78 case 50 => 79 case 51 => 80 case 52 => 81 case 53 => 82 case 54 => 83 case 55 => 84
    case 56 => 85 case 57 => 86 case 58 => 87 case 59 => 89 case 60 => 106 case 61 => 107 case 62 => 113
    case _ => 118
  }

  function Canonical64(rank: nat): nat {
    match rank
    case 64 => 119 case 65 => 120 case 66 => 121 case 67 => 122 case 68 => 38 case 69 => 42 case 70 => 44 case 71 => 59
    case 72 => 88 case 73 => 90 case 74 => 33 case 75 => 34 case 76 => 40 case 77 => 41 case 78 => 63 case 79 => 39
    case 80 => 43 case 81 => 124 case 82 => 35 case 83 => 62 case 84 => 0 case 85 => 36 case 86 => 64 case 87 => 91
    case 88 => 93 case 89 => 126 case 90 => 94 case 91 => 125 case 92 => 60 case 93 => 96 case 94 => 123
    case _ => 92
  }

  function Canonical96(rank: nat): nat {
    match rank
    case 96 => 195 case 97 => 208 case 98 => 128 case 99 => 130 case 100 => 131 case 101 => 162 case 102 => 184 case 103 => 194
    case 104 => 224 case 105 => 226 case 106 => 153 case 107 => 161 case 108 => 167 case 109 => 172 case 110 => 176 case 111 => 177
    case 112 => 179 case 113 => 209 case 114 => 216 case 115 => 217 case 116 => 227 case 117 => 229 case 118 => 230 case 119 => 129
    case 120 => 132 case 121 => 133 case 122 => 134 case 123 => 136 case 124 => 146 case 125 => 154 case 126 => 156
    case _ => 160
  }

  function Canonical128(rank: nat): nat {
    match rank
    case 128 => 163 case 129 => 164 case 130 => 169 case 131 => 170 case 132 => 173 case 133 => 178 case 134 => 181 case 135 => 185
    case 136 => 186 case 137 => 187 case 138 => 189 case 139 => 190 case 140 => 196 case 141 => 198 case 142 => 228 case 143 => 232
    case 144 => 233 case 145 => 1 case 146 => 135 case 147 => 137 case 148 => 138 case 149 => 139 case 150 => 140 case 151 => 141
    case 152 => 143 case 153 => 147 case 154 => 149 case 155 => 150 case 156 => 151 case 157 => 152 case 158 => 155
    case _ => 157
  }

  function Canonical160(rank: nat): nat {
    match rank
    case 160 => 158 case 161 => 165 case 162 => 166 case 163 => 168 case 164 => 174 case 165 => 175 case 166 => 180 case 167 => 182
    case 168 => 183 case 169 => 188 case 170 => 191 case 171 => 197 case 172 => 231 case 173 => 239 case 174 => 9 case 175 => 142
    case 176 => 144 case 177 => 145 case 178 => 148 case 179 => 159 case 180 => 171 case 181 => 206 case 182 => 215 case 183 => 225
    case 184 => 236 case 185 => 237 case 186 => 199 case 187 => 207 case 188 => 234 case 189 => 235 case 190 => 192
    case _ => 193
  }

  function Canonical192(rank: nat): nat {
    match rank
    case 192 => 200 case 193 => 201 case 194 => 202 case 195 => 205 case 196 => 210 case 197 => 213 case 198 => 218 case 199 => 219
    case 200 => 238 case 201 => 240 case 202 => 242 case 203 => 243 case 204 => 255 case 205 => 203 case 206 => 204 case 207 => 211
    case 208 => 212 case 209 => 214 case 210 => 221 case 211 => 222 case 212 => 223 case 213 => 241 case 214 => 244 case 215 => 245
    case 216 => 246 case 217 => 247 case 218 => 248 case 219 => 250 case 220 => 251 case 221 => 252 case 222 => 253
    case _ => 254
  }

  function Canonical224(rank: nat): nat {
    match rank
    case 224 => 2 case 225 => 3 case 226 => 4 case 227 => 5 case 228 => 6 case 229 => 7 case 230 => 8 case 231 => 11
    case 232 => 12 case 233 => 14 case 234 => 15 case 235 => 16 case 236 => 17 case 237 => 18 case 238 => 19 case 239 => 20
    case 240 => 21 case 241 => 23 case 242 => 24 case 243 => 25 case 244 => 26 case 245 => 27 case 246 => 28 case 247 => 29
    case 248 => 30 case 249 => 31 case 250 => 127 case 251 => 220 case 252 => 249 case 253 => 10 case 254 => 13
    case _ => 22
  }

  /** `c` is one of the codes of `len` bits, and it is the one of `sym`. */
  predicate IsCanonical(c: nat, len: nat, sym: nat) {
    && 5 <= len <= MAX_LEN
    && First(len) <= c < First(len) + CountOfLen(len)
    && Canonical(Before(len) + (c - First(len))) == sym
  }

  lemma Canonical0Ok(sym: nat)
    requires 0 <= sym < 32
    ensures IsCanonical(Entry0(sym).0, Entry0(sym).1, sym)
  {}

  lemma Canonical32Ok(sym: nat)
    requires 32 <= sym < 64
    ensures IsCanonical(Entry32(sym).0, Entry32(sym).1, sym)
  {}

  lemma Canonical64Ok(sym: nat)
    requires 64 <= sym < 96
    ensures IsCanonical(Entry64(sym).0, Entry64(sym).1, sym)
  {}

  lemma Canonical96Ok(sym: nat)
    requires 96 <= sym < 128
    ensures IsCanonical(Entry96(sym).0, Entry96(sym).1, sym)
  {}

  lemma Canonical128Ok(sym: nat)
    requires 128 <= sym < 160
    ensures IsCanonical(Entry128(sym).0, Entry128(sym).1, sym)
  {}

  lemma Canonical160Ok(sym: nat)
    requires 160 <= sym < 192
    ensures IsCanonical(Entry160(sym).0, Entry160(sym).1, sym)
  {}

  lemma Canonical192Ok(sym: nat)
    requires 192 <= sym < 224
    ensures IsCanonical(Entry192(sym).0, Entry192(sym).1, sym)
  {}

  lemma Canonical224Ok(sym: nat)
    requires 224 <= sym < 256
    ensures IsCanonical(Entry224(sym).0, Entry224(sym).1, sym)
  {}

  lemma EntryIsCanonical(sym: nat)
    requires sym <= EOS
    ensures IsCanonical(Entry(sym).0, Entry(sym).1, sym)
  {
    if sym < 128 {
      if sym < 64 { if sym < 32 { Canonical0Ok(sym); } else { Canonical32Ok(sym); } }
      else { if sym < 96 { Canonical64Ok(sym); } else { Canonical96Ok(sym); } }
    } else if sym < EOS {
      if sym < 192 { if sym < 160 { Canonical128Ok(sym); } else { Canonical160Ok(sym); } }
      else { if sym < 224 { Canonical192Ok(sym); } else { Canonical224Ok(sym); } }
    }
  }

  lemma FirstFollows(len: nat)
    requires 5 <= len < MAX_LEN
    ensures First(len + 1) == 2 * (First(len) + CountOfLen(len))
  {}

  /** Longer codes start above everything that begins with a shorter code. */
  lemma {:induction false} LongerIsAbove(a: nat, b: nat)
    requires 5 <= a < b <= MAX_LEN
    ensures (First(a) + CountOfLen(a)) * Pow2(b - a) <= First(b)
    decreases b
  {
    FirstFollows(b - 1);
    if a == b - 1 {
      assert Pow2(1) == 2;
    } else {
      LongerIsAbove(a, b - 1);
      Doubled(First(a) + CountOfLen(a), Pow2(b - 1 - a));
      assert Pow2(b - a) == 2 * Pow2(b - 1 - a);
    }
  }

  lemma Doubled(x: nat, p: nat)
    ensures x * (2 * p) == 2 * (x * p)
  {}

  lemma CodesFit(len: nat)
    requires 5 <= len <= MAX_LEN
    ensures First(len) + CountOfLen(len) <= Pow2(len)
  {
    Pow2_30();
    if len < MAX_LEN {
      LongerIsAbove(len, MAX_LEN);
      Pow2Add(len, MAX_LEN - len);
      Quotient(First(len) + CountOfLen(len), Pow2(len), Pow2(MAX_LEN - len));
    }
  }

  lemma Quotient(x: nat, y: nat, p: nat)
    requires p > 0 && x * p <= y * p
    ensures x <= y
  {
    Gap(x, y, p);
  }

  lemma Pow2_30()
    ensures Pow2(MAX_LEN) == 0x4000_0000
  {
    Pow2Values();
    Pow2Add(8, 7);
    Pow2Add(15, 15);
  }

  function Rfc7541(): (t: Table)
    ensures |t| == EOS + 1
  {
    seq(EOS + 1, sym requires 0 <= sym <= EOS => Entry(sym))
  }

  /** A code that begins another one is its leading part as a number. */
  lemma PrefixIsQuotient(ca: nat, la: nat, cb: nat, lb: nat)
    requires ca < Pow2(la) && cb < Pow2(lb) && BitsOf(ca, la) <= BitsOf(cb, lb)
    ensures la <= lb && cb < (ca + 1) * Pow2(lb - la) && (la == lb ==> ca == cb)
  {
    var bits := BitsOf(cb, lb);
    ValueOfBits(ca, la);
    ValueOfBits(cb, lb);
    var rest := bits[la..];
    assert BitsOf(ca, la) + rest == bits;
    ValueConcat(BitsOf(ca, la), rest);
    ValueBound(rest);
    NextMultiple(ca, Pow2(lb - la), ValueOf(rest));
  }

  lemma NextMultiple(x: nat, p: nat, v: nat)
    requires v < p
    ensures x * p + v < (x + 1) * p && (p == 1 ==> x * p + v == x)
  {}

  lemma ShorterIsBelow(ca: nat, la: nat, cb: nat, lb: nat)
    requires 5 <= la < lb <= MAX_LEN && ca < First(la) + CountOfLen(la) && First(lb) <= cb
    ensures (ca + 1) * Pow2(lb - la) <= cb
  {
    LongerIsAbove(la, lb);
    AtMost(ca + 1, First(la) + CountOfLen(la), Pow2(lb - la));
  }

  lemma CodesApart(ca: nat, la: nat, a: nat, cb: nat, lb: nat, b: nat)
    requires IsCanonical(ca, la, a) && IsCanonical(cb, lb, b) && BitsOf(ca, la) <= BitsOf(cb, lb)
    ensures a == b
  {
    CodesFit(la);
    CodesFit(lb);
    PrefixIsQuotient(ca, la, cb, lb);
    if la < lb { ShorterIsBelow(ca, la, cb, lb); }
  }

  lemma RfcApart(a: nat, b: nat)
    requires a <= EOS && b <= EOS
    ensures Apart(Rfc7541(), a, b)
  {
    EntryIsCanonical(a);
    EntryIsCanonical(b);
    var (x, y) := (Entry(a), Entry(b));
    if BitsOf(x.0, x.1) <= BitsOf(y.0, y.1) {
      CodesApart(x.0, x.1, a, y.0, y.1, b);
    }
  }

  lemma AtMost(x: nat, y: nat, p: nat)
    requires x <= y
    ensures x * p <= y * p
  {
    assert y * p == x * p + (y - x) * p;
  }

  lemma EosIsOnes()
    ensures Code(Rfc7541(), EOS) == Ones(MAX_LEN)
  {
    Pow2_30();
    var n := MAX_LEN;
    ValueOfOnes(n);
    BitsOfValue(Ones(n));
  }

  /** The table of RFC 7541 is one the codec is proved for: every code is 5 to 30 bits long, none
      begins another, and EOS is 30 ones. */
  lemma RfcIsGood()
    ensures Good(Rfc7541())
  {
    var t := Rfc7541();
    forall sym: nat | sym <= EOS ensures CodeOk(t, sym) {
      EntryIsCanonical(sym);
      CodesFit(Entry(sym).1);
      if sym == EOS { EosIsOnes(); }
    }
    forall a: nat, b: nat | a <= EOS && b <= EOS ensures Apart(t, a, b) {
      RfcApart(a, b);
    }
  }
}
