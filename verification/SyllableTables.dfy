/** The 512 syllables of ship names (pkg/phonemes/phonemes.go), sixteen to a row. */
module SyllableTables {
  import opened Phonemes
  import opened Outcomes
  import Scrambler

  predicate IsSyllable(s: string) {
    |s| == 3 && forall i :: 0 <= i < 3 ==> 'a' <= s[i] <= 'z'
  }

  /** Three letters as a number in base 26. */
  function Code(s: string): int
    requires |s| == 3
  {
    (s[0] as int - 97) * 676 + (s[1] as int - 97) * 26 + (s[2] as int - 97)
  }

  function PrefixPosition0(c: int): nat {
    if c < 687 then 238 else if c < 689 then 107 else if c < 693 then 92 else if c < 695 then 183
    else if c < 886 then 172 else if c < 887 then 56 else if c < 895 then 106 else if c < 897 then 144
    else if c < 902 then 2 else if c < 903 then 60 else if c < 1051 then 182 else if c < 1053 then 45
    else if c < 1057 then 244 else if c < 1058 then 188 else if c < 1059 then 171 else if c < 2029 then 98
    else if c < 2030 then 181 else if c < 2039 then 117 else if c < 2041 then 37 else if c < 2043 then 234
    else if c < 2045 then 66 else if c < 2046 then 23 else if c < 2047 then 61 else if c < 2049 then 215
    else if c < 2237 then 105 else if c < 2241 then 179 else if c < 2242 then 57 else if c < 2247 then 193
    else if c < 2249 then 49 else if c < 2253 then 217 else if c < 2254 then 11 else if c < 2257 then 129
    else if c < 2394 then 116 else if c < 2403 then 146 else if c < 2405 then 102 else if c < 2407 then 233
    else if c < 2409 then 18 else if c < 2410 then 24 else if c < 2411 then 187 else if c < 2413 then 47
    else if c < 2417 then 236 else if c < 3381 then 0 else if c < 3383 then 120 else if c < 3391 then 206
    else if c < 3392 then 152 else if c < 3393 then 214 else if c < 3398 then 158 else if c < 3591 then 195
    else if c < 3594 then 8 else if c < 3599 then 138 else if c < 3601 then 194 else if c < 3603 then 90
    else if c < 3605 then 255 else if c < 3607 then 169 else if c < 3747 then 226 else if c < 3750 then 247
    else if c < 3755 then 20 else if c < 3757 then 27 else if c < 3759 then 91 else if c < 3761 then 213
    else if c < 3762 then 50 else if c < 3763 then 46 else if c < 4733 then 221 else 209
  }

  function PrefixPosition1(c: int): nat {
    if c < 4735 then 174 else if c < 4743 then 145 else if c < 4745 then 203 else if c < 4747 then 41
    else if c < 4749 then 156 else if c < 4750 then 198 else if c < 4751 then 170 else if c < 4753 then 218
    else if c < 4943 then 176 else if c < 4951 then 7 else if c < 4953 then 190 else if c < 5097 then 200
    else if c < 5098 then 197 else if c < 5099 then 223 else if c < 5107 then 26 else if c < 5111 then 32
    else if c < 5114 then 22 else if c < 7437 then 180 else if c < 7438 then 161 else if c < 7439 then 34
    else if c < 7442 then 235 else if c < 7449 then 205 else if c < 7451 then 232 else if c < 7453 then 240
    else if c < 7454 then 225 else if c < 7455 then 128 else if c < 7457 then 134 else if c < 7645 then 252
    else if c < 7647 then 39 else if c < 7650 then 21 else if c < 7657 then 111 else if c < 7662 then 178
    else if c < 7663 then 9 else if c < 7665 then 5 else if c < 7802 then 36 else if c < 7803 then 69
    else if c < 7812 then 186 else if c < 7813 then 166 else if c < 7815 then 135 else if c < 7817 then 63
    else if c < 7818 then 25 else if c < 8114 then 48 else if c < 8118 then 191 else if c < 8123 then 103
    else if c < 8127 then 110 else if c < 8129 then 130 else if c < 8130 then 1 else if c < 8131 then 202
    else if c < 8322 then 253 else if c < 8323 then 157 else if c < 8326 then 62 else if c < 8331 then 199
    else if c < 8333 then 212 else if c < 8335 then 79 else if c < 8337 then 254 else if c < 8338 then 31
    else if c < 8339 then 126 else if c < 8478 then 196 else if c < 8479 then 148 else if c < 8482 then 19
    else if c < 8487 then 162 else if c < 8489 then 67 else if c < 8491 then 122 else 208
  }

  function PrefixPosition2(c: int): nat {
    if c < 8494 then 93 else if c < 8495 then 231 else if c < 8790 then 82 else if c < 8799 then 219
    else if c < 8800 then 230 else if c < 8803 then 243 else if c < 8805 then 87 else if c < 8807 then 65
    else if c < 8809 then 77 else if c < 8997 then 137 else if c < 8999 then 140 else if c < 9007 then 72
    else if c < 9008 then 210 else if c < 9014 then 224 else if c < 9154 then 124 else if c < 9155 then 250
    else if c < 9163 then 136 else if c < 9164 then 216 else if c < 9167 then 139 else if c < 9169 then 88
    else if c < 9170 then 97 else if c < 9173 then 211 else if c < 10142 then 70 else if c < 10143 then 149
    else if c < 10146 then 114 else if c < 10151 then 141 else if c < 10153 then 127 else if c < 10157 then 78
    else if c < 10158 then 185 else if c < 10159 then 33 else if c < 10350 then 159 else if c < 10351 then 104
    else if c < 10359 then 43 else if c < 10361 then 51 else if c < 10367 then 165 else if c < 10506 then 242
    else if c < 10507 then 173 else if c < 10515 then 81 else if c < 10517 then 239 else if c < 10522 then 248
    else if c < 11493 then 86 else if c < 11494 then 131 else if c < 11495 then 184 else if c < 11498 then 201
    else if c < 11503 then 204 else if c < 11504 then 143 else if c < 11505 then 52 else if c < 11507 then 123
    else if c < 11513 then 228 else if c < 11701 then 150 else if c < 11702 then 222 else if c < 11703 then 167
    else if c < 11706 then 147 else if c < 11711 then 16 else if c < 11713 then 64 else if c < 11715 then 28
    else if c < 11718 then 151 else if c < 11719 then 220 else if c < 11721 then 80 else if c < 11858 then 237
    else if c < 11867 then 58 else if c < 11869 then 133 else if c < 11871 then 96 else 75
  }

  function PrefixPosition3(c: int): nat {
    if c < 11877 then 245 else if c < 12169 then 35 else if c < 12179 then 13 else if c < 12180 then 115
    else if c < 12181 then 4 else if c < 12183 then 68 else if c < 12185 then 177 else if c < 12187 then 229
    else if c < 12189 then 38 else if c < 12377 then 85 else if c < 12378 then 15 else if c < 12379 then 74
    else if c < 12382 then 119 else if c < 12387 then 6 else if c < 12388 then 30 else if c < 12391 then 163
    else if c < 12395 then 95 else if c < 12397 then 71 else if c < 12534 then 112 else if c < 12538 then 100
    else if c < 12543 then 10 else if c < 12544 then 17 else if c < 12545 then 89 else if c < 12547 then 164
    else if c < 12549 then 142 else if c < 12553 then 251 else if c < 12845 then 249 else if c < 12846 then 40
    else if c < 12847 then 160 else if c < 12850 then 55 else if c < 12855 then 113 else if c < 12856 then 241
    else if c < 12857 then 83 else if c < 12859 then 118 else if c < 12861 then 168 else if c < 12862 then 121
    else if c < 13054 then 109 else if c < 13055 then 42 else if c < 13063 then 175 else if c < 13064 then 154
    else if c < 13065 then 108 else if c < 13067 then 155 else if c < 13069 then 73 else if c < 13209 then 53
    else if c < 13210 then 132 else if c < 13211 then 189 else if c < 13214 then 153 else if c < 13219 then 29
    else if c < 13220 then 84 else if c < 13221 then 192 else if c < 13223 then 246 else if c < 13225 then 207
    else if c < 14874 then 44 else if c < 14883 then 12 else if c < 14885 then 227 else if c < 14891 then 3
    else if c < 15082 then 101 else if c < 15083 then 99 else if c < 15093 then 59 else if c < 15098 then 54
    else if c < 15099 then 14 else if c < 15247 then 76 else if c < 15253 then 125 else 94
  }

  /** The position of a prefix, found by its letters: a search, from which it follows that no two are alike. */
  function PrefixPosition(c: int): nat {
    if c < 4734 then PrefixPosition0(c) else if c < 8493 then PrefixPosition1(c)
    else if c < 11874 then PrefixPosition2(c) else PrefixPosition3(c)
  }

  ghost predicate PrefixesInPlace(row: seq<string>, r: nat) {
    |row| == 16 && forall k :: 0 <= k < 16 ==> IsSyllable(row[k]) && PrefixPosition(Code(row[k])) == 16 * r + k
  }

  function PrefixRow0(): (row: seq<string>)
    ensures PrefixesInPlace(row, 0)
  {
    ["doz", "mar", "bin", "wan", "sam", "lit", "sig", "hid",
     "fid", "lis", "sog", "dir", "wac", "sab", "wis", "sib"]
  }

  function PrefixRow1(): (row: seq<string>)
    ensures PrefixesInPlace(row, 1)
  {
    ["rig", "sol", "dop", "mod", "fog", "lid", "hop", "dar",
     "dor", "lor", "hod", "fol", "rin", "tog", "sil", "mir"]
  }

  function PrefixRow2(): (row: seq<string>)
    ensures PrefixesInPlace(row, 2)
  {
    ["hol", "pas", "lac", "rov", "liv", "dal", "sat", "lib",
     "tab", "han", "tic", "pid", "tor", "bol", "fos", "dot"]
  }

  function PrefixRow3(): (row: seq<string>)
    ensures PrefixesInPlace(row, 3)
  {
    ["los", "dil", "for", "pil", "ram", "tir", "win", "tad",
     "bic", "dif", "roc", "wid", "bis", "das", "mid", "lop"]
  }

  function PrefixRow4(): (row: seq<string>)
    ensures PrefixesInPlace(row, 4)
  {
    ["ril", "nar", "dap", "mol", "san", "loc", "nov", "sit",
     "nid", "tip", "sic", "rop", "wit", "nat", "pan", "min"]
  }

  function PrefixRow5(): (row: seq<string>)
    ensures PrefixesInPlace(row, 5)
  {
    ["rit", "pod", "mot", "tam", "tol", "sav", "pos", "nap",
     "nop", "som", "fin", "fon", "ban", "mor", "wor", "sip"]
  }

  function PrefixRow6(): (row: seq<string>)
    ensures PrefixesInPlace(row, 6)
  {
    ["ron", "nor", "bot", "wic", "soc", "wat", "dol", "mag",
     "pic", "dav", "bid", "bal", "tim", "tas", "mal", "lig"]
  }

  function PrefixRow7(): (row: seq<string>)
    ensures PrefixesInPlace(row, 7)
  {
    ["siv", "tag", "pad", "sal", "div", "dac", "tan", "sid",
     "fab", "tar", "mon", "ran", "nis", "wol", "mis", "pal"]
  }

  function PrefixRow8(): (row: seq<string>)
    ensures PrefixesInPlace(row, 8)
  {
    ["las", "dis", "map", "rab", "tob", "rol", "lat", "lon",
     "nod", "nav", "fig", "nom", "nib", "pag", "sop", "ral"]
  }

  function PrefixRow9(): (row: seq<string>)
    ensures PrefixesInPlace(row, 9)
  {
    ["bil", "had", "doc", "rid", "moc", "pac", "rav", "rip",
     "fal", "tod", "til", "tin", "hap", "mic", "fan", "pat"]
  }

  function PrefixRow10(): (row: seq<string>)
    ensures PrefixesInPlace(row, 10)
  {
    ["tac", "lab", "mog", "sim", "son", "pin", "lom", "ric",
     "tap", "fir", "has", "bos", "bat", "poc", "hac", "tid"]
  }

  function PrefixRow11(): (row: seq<string>)
    ensures PrefixesInPlace(row, 11)
  {
    ["hav", "sap", "lin", "dib", "hos", "dab", "bit", "bar",
     "rac", "par", "lod", "dos", "bor", "toc", "hil", "mac"]
  }

  function PrefixRow12(): (row: seq<string>)
    ensures PrefixesInPlace(row, 12)
  {
    ["tom", "dig", "fil", "fas", "mit", "hob", "har", "mig",
     "hin", "rad", "mas", "hal", "rag", "lag", "fad", "top"]
  }

  function PrefixRow13(): (row: seq<string>)
    ensures PrefixesInPlace(row, 13)
  {
    ["mop", "hab", "nil", "nos", "mil", "fop", "fam", "dat",
     "nol", "din", "hat", "nac", "ris", "fot", "rib", "hoc"]
  }

  function PrefixRow14(): (row: seq<string>)
    ensures PrefixesInPlace(row, 14)
  {
    ["nim", "lar", "fit", "wal", "rap", "sar", "nal", "mos",
     "lan", "don", "dan", "lad", "dov", "riv", "bac", "pol"]
  }

  function PrefixRow15(): (row: seq<string>)
    ensures PrefixesInPlace(row, 15)
  {
    ["lap", "tal", "pit", "nam", "bon", "ros", "ton", "fod",
     "pon", "sov", "noc", "sor", "lav", "mat", "mip", "fip"]
  }

  function PrefixRow(r: nat): (row: seq<string>)
    requires r < 16
    ensures PrefixesInPlace(row, r)
  {
    if r == 0 then PrefixRow0() else
    if r == 1 then PrefixRow1() else
    if r == 2 then PrefixRow2() else
    if r == 3 then PrefixRow3() else
    if r == 4 then PrefixRow4() else
    if r == 5 then PrefixRow5() else
    if r == 6 then PrefixRow6() else
    if r == 7 then PrefixRow7() else
    if r == 8 then PrefixRow8() else
    if r == 9 then PrefixRow9() else
    if r == 10 then PrefixRow10() else
    if r == 11 then PrefixRow11() else
    if r == 12 then PrefixRow12() else
    if r == 13 then PrefixRow13() else
    if r == 14 then PrefixRow14() else
    PrefixRow15()
  }

  const PREFIXES: seq<string> := seq(256, i requires 0 <= i < 256 => PrefixRow(i / 16)[i % 16])

  lemma PrefixesAreTable()
    ensures IsTable(PREFIXES)
  {
    hide PrefixPosition, Code, PrefixRow;
    forall i | 0 <= i < 256
      ensures |PREFIXES[i]| == 3 && '-' !in PREFIXES[i] && PrefixPosition(Code(PREFIXES[i])) == i
    {
      assert PrefixesInPlace(PrefixRow(i / 16), i / 16);
    }
  }

  function SuffixPosition0(c: int): nat {
    if c < 791 then 238 else if c < 793 then 107 else if c < 795 then 92 else if c < 797 then 183
    else if c < 798 then 172 else if c < 799 then 56 else if c < 803 then 106 else if c < 1199 then 144
    else if c < 1213 then 2 else if c < 1214 then 60 else if c < 1311 then 182 else if c < 1313 then 176
    else if c < 1317 then 45 else if c < 1319 then 244 else if c < 2133 then 188 else if c < 2134 then 171
    else if c < 2137 then 98 else if c < 2138 then 181 else if c < 2143 then 117 else if c < 2144 then 37
    else if c < 2145 then 234 else if c < 2147 then 66 else if c < 2149 then 23 else if c < 2150 then 61
    else if c < 2151 then 215 else if c < 2153 then 105 else if c < 2155 then 179 else if c < 2550 then 57
    else if c < 2559 then 193 else if c < 2561 then 49 else if c < 2565 then 217 else if c < 2566 then 11
    else if c < 2567 then 129 else if c < 2571 then 116 else if c < 2663 then 146 else if c < 2665 then 102
    else if c < 2669 then 233 else if c < 2670 then 18 else if c < 2671 then 24 else if c < 3485 then 187
    else if c < 3487 then 47 else if c < 3495 then 236 else if c < 3497 then 120 else if c < 3499 then 206
    else if c < 3501 then 152 else if c < 3502 then 158 else if c < 3503 then 255 else if c < 3507 then 214
    else if c < 3911 then 195 else if c < 3913 then 8 else if c < 3917 then 138 else if c < 3918 then 194
    else if c < 4015 then 90 else if c < 4017 then 169 else if c < 4021 then 226 else if c < 4837 then 247
    else if c < 4838 then 20 else if c < 4851 then 27 else if c < 4854 then 91 else if c < 4855 then 213
    else if c < 4859 then 50 else if c < 5263 then 46 else if c < 5270 then 221 else 209
  }

  function SuffixPosition1(c: int): nat {
    if c < 7541 then 174 else if c < 7542 then 145 else if c < 7543 then 203 else if c < 7546 then 41
    else if c < 7553 then 156 else if c < 7555 then 198 else if c < 7557 then 170 else if c < 7559 then 218
    else if c < 7561 then 7 else if c < 7563 then 190 else if c < 7958 then 200 else if c < 7959 then 197
    else if c < 7962 then 223 else if c < 7969 then 26 else if c < 7971 then 32 else if c < 7973 then 22
    else if c < 7974 then 180 else if c < 7975 then 161 else if c < 7979 then 34 else if c < 8063 then 235
    else if c < 8073 then 205 else if c < 8077 then 232 else if c < 8078 then 240 else if c < 8079 then 225
    else if c < 8083 then 128 else if c < 8217 then 134 else if c < 8218 then 114 else if c < 8219 then 141
    else if c < 8222 then 127 else if c < 8227 then 78 else if c < 8231 then 185 else if c < 8233 then 33
    else if c < 8234 then 159 else if c < 8235 then 104 else if c < 8237 then 43 else if c < 8239 then 51
    else if c < 8635 then 165 else if c < 8638 then 242 else if c < 8643 then 173 else if c < 8645 then 81
    else if c < 8649 then 239 else if c < 8650 then 248 else if c < 8651 then 93 else if c < 8747 then 86
    else if c < 8749 then 191 else if c < 8753 then 103 else if c < 8893 then 110 else if c < 8894 then 130
    else if c < 8895 then 1 else if c < 8903 then 202 else if c < 8904 then 253 else if c < 8907 then 157
    else if c < 8909 then 62 else if c < 8910 then 199 else if c < 8911 then 212 else if c < 8913 then 79
    else if c < 8915 then 254 else if c < 9309 then 31 else if c < 9319 then 126 else if c < 9320 then 196
    else if c < 9323 then 148 else if c < 9326 then 19 else if c < 9327 then 162 else 67
  }

  function SuffixPosition2(c: int): nat {
    if c < 9415 then 122 else if c < 9423 then 208 else if c < 9424 then 231 else if c < 9429 then 82
    else if c < 9430 then 219 else if c < 9431 then 230 else if c < 9435 then 243 else if c < 10246 then 87
    else if c < 10247 then 252 else if c < 10250 then 39 else if c < 10255 then 21 else if c < 10256 then 111
    else if c < 10257 then 178 else if c < 10261 then 9 else if c < 10262 then 5 else if c < 10263 then 36
    else if c < 10267 then 69 else if c < 10661 then 186 else if c < 10673 then 166 else if c < 10677 then 135
    else if c < 10679 then 63 else if c < 10775 then 25 else if c < 10787 then 48 else if c < 11597 then 149
    else if c < 11598 then 65 else if c < 11599 then 77 else if c < 11601 then 137 else if c < 11602 then 140
    else if c < 11607 then 72 else if c < 11608 then 210 else if c < 11609 then 224 else if c < 11611 then 124
    else if c < 11614 then 250 else if c < 11615 then 136 else if c < 11617 then 216 else if c < 11619 then 139
    else if c < 12014 then 88 else if c < 12015 then 97 else if c < 12023 then 211 else if c < 12024 then 70
    else if c < 12025 then 131 else if c < 12027 then 184 else if c < 12030 then 201 else if c < 12031 then 143
    else if c < 12035 then 52 else if c < 12118 then 123 else if c < 12119 then 228 else if c < 12122 then 204
    else if c < 12127 then 150 else if c < 12128 then 222 else if c < 12129 then 167 else if c < 12131 then 147
    else if c < 12134 then 16 else if c < 12135 then 64 else if c < 12139 then 28 else if c < 12273 then 151
    else if c < 12274 then 220 else if c < 12275 then 80 else if c < 12277 then 237 else if c < 12278 then 58
    else if c < 12283 then 133 else if c < 12284 then 96 else if c < 12285 then 75 else 245
  }

  function SuffixPosition3(c: int): nat {
    if c < 12289 then 35 else if c < 12291 then 13 else if c < 12293 then 115 else if c < 12689 then 4
    else if c < 12691 then 68 else if c < 12694 then 177 else if c < 12699 then 229 else if c < 12700 then 38
    else if c < 12701 then 85 else if c < 12703 then 15 else if c < 12705 then 74 else if c < 12707 then 119
    else if c < 12795 then 6 else if c < 12803 then 30 else if c < 12804 then 163 else if c < 12805 then 95
    else if c < 12807 then 71 else if c < 12809 then 112 else if c < 12811 then 100 else if c < 12815 then 10
    else if c < 12949 then 17 else if c < 12950 then 89 else if c < 12951 then 164 else if c < 12954 then 142
    else if c < 12959 then 251 else if c < 12960 then 249 else if c < 12961 then 40 else if c < 12963 then 160
    else if c < 12965 then 55 else if c < 12966 then 113 else if c < 12969 then 241 else if c < 12971 then 83
    else if c < 13366 then 118 else if c < 13367 then 168 else if c < 13370 then 121 else if c < 13375 then 109
    else if c < 13377 then 42 else if c < 13382 then 175 else if c < 13387 then 154 else if c < 13470 then 108
    else if c < 13471 then 155 else if c < 13479 then 73 else if c < 13481 then 53 else if c < 13483 then 132
    else if c < 13485 then 189 else if c < 13489 then 153 else if c < 14977 then 29 else if c < 14979 then 84
    else if c < 14982 then 192 else if c < 14987 then 246 else if c < 14989 then 207 else if c < 14991 then 44
    else if c < 14993 then 12 else if c < 14994 then 227 else if c < 14995 then 3 else if c < 14999 then 101
    else if c < 15498 then 99 else if c < 15499 then 59 else if c < 15507 then 54 else if c < 15509 then 14
    else if c < 15515 then 76 else if c < 15519 then 125 else if c < 17267 then 94 else 0
  }

  /** The position of a suffix, found by its letters: a search, from which it follows that no two are alike. */
  function SuffixPosition(c: int): nat {
    if c < 5271 then SuffixPosition0(c) else if c < 9331 then SuffixPosition1(c)
    else if c < 12287 then SuffixPosition2(c) else SuffixPosition3(c)
  }

  ghost predicate SuffixesInPlace(row: seq<string>, r: nat) {
    |row| == 16 && forall k :: 0 <= k < 16 ==> IsSyllable(row[k]) && SuffixPosition(Code(row[k])) == 16 * r + k
  }

  function SuffixRow0(): (row: seq<string>)
    ensures SuffixesInPlace(row, 0)
  {
    ["zod", "nec", "bud", "wes", "sev", "per", "sut", "let",
     "ful", "pen", "syt", "dur", "wep", "ser", "wyl", "sun"]
  }

  function SuffixRow1(): (row: seq<string>)
    ensures SuffixesInPlace(row, 1)
  {
    ["ryp", "syx", "dyr", "nup", "heb", "peg", "lup", "dep",
     "dys", "put", "lug", "hec", "ryt", "tyv", "syd", "nex"]
  }

  function SuffixRow2(): (row: seq<string>)
    ensures SuffixesInPlace(row, 2)
  {
    ["lun", "mep", "lut", "sep", "pes", "del", "sul", "ped",
     "tem", "led", "tul", "met", "wen", "byn", "hex", "feb"]
  }

  function SuffixRow3(): (row: seq<string>)
    ensures SuffixesInPlace(row, 3)
  {
    ["pyl", "dul", "het", "mev", "rut", "tyl", "wyd", "tep",
     "bes", "dex", "sef", "wyc", "bur", "der", "nep", "pur"]
  }

  function SuffixRow4(): (row: seq<string>)
    ensures SuffixesInPlace(row, 4)
  {
    ["rys", "reb", "den", "nut", "sub", "pet", "rul", "syn",
     "reg", "tyd", "sup", "sem", "wyn", "rec", "meg", "net"]
  }

  function SuffixRow5(): (row: seq<string>)
    ensures SuffixesInPlace(row, 5)
  {
    ["sec", "mul", "nym", "tev", "web", "sum", "mut", "nyx",
     "rex", "teb", "fus", "hep", "ben", "mus", "wyx", "sym"]
  }

  function SuffixRow6(): (row: seq<string>)
    ensures SuffixesInPlace(row, 6)
  {
    ["sel", "ruc", "dec", "wex", "syr", "wet", "dyl", "myn",
     "mes", "det", "bet", "bel", "tux", "tug", "myr", "pel"]
  }

  function SuffixRow7(): (row: seq<string>)
    ensures SuffixesInPlace(row, 7)
  {
    ["syp", "ter", "meb", "set", "dut", "deg", "tex", "sur",
     "fel", "tud", "nux", "rux", "ren", "wyt", "nub", "med"]
  }

  function SuffixRow8(): (row: seq<string>)
    ensures SuffixesInPlace(row, 8)
  {
    ["lyt", "dus", "neb", "rum", "tyn", "seg", "lyx", "pun",
     "res", "red", "fun", "rev", "ref", "mec", "ted", "rus"]
  }

  function SuffixRow9(): (row: seq<string>)
    ensures SuffixesInPlace(row, 9)
  {
    ["bex", "leb", "dux", "ryn", "num", "pyx", "ryg", "ryx",
     "fep", "tyr", "tus", "tyc", "leg", "nem", "fer", "mer"]
  }

  function SuffixRow10(): (row: seq<string>)
    ensures SuffixesInPlace(row, 10)
  {
    ["ten", "lus", "nus", "syl", "tec", "mex", "pub", "rym",
     "tuc", "fyl", "lep", "deb", "ber", "mug", "hut", "tun"]
  }

  function SuffixRow11(): (row: seq<string>)
    ensures SuffixesInPlace(row, 11)
  {
    ["byl", "sud", "pem", "dev", "lur", "def", "bus", "bep",
     "run", "mel", "pex", "dyt", "byt", "typ", "lev", "myl"]
  }

  function SuffixRow12(): (row: seq<string>)
    ensures SuffixesInPlace(row, 12)
  {
    ["wed", "duc", "fur", "fex", "nul", "luc", "len", "ner",
     "lex", "rup", "ned", "lec", "ryd", "lyd", "fen", "wel"]
  }

  function SuffixRow13(): (row: seq<string>)
    ensures SuffixesInPlace(row, 13)
  {
    ["nyd", "hus", "rel", "rud", "nes", "hes", "fet", "des",
     "ret", "dun", "ler", "nyr", "seb", "hul", "ryl", "lud"]
  }

  function SuffixRow14(): (row: seq<string>)
    ensures SuffixesInPlace(row, 14)
  {
    ["rem", "lys", "fyn", "wer", "ryc", "sug", "nys", "nyl",
     "lyn", "dyn", "dem", "lux", "fed", "sed", "bec", "mun"]
  }

  function SuffixRow15(): (row: seq<string>)
    ensures SuffixesInPlace(row, 15)
  {
    ["lyr", "tes", "mud", "nyt", "byr", "sen", "weg", "fyr",
     "mur", "tel", "rep", "teg", "pec", "nel", "nev", "fes"]
  }

  function SuffixRow(r: nat): (row: seq<string>)
    requires r < 16
    ensures SuffixesInPlace(row, r)
  {
    if r == 0 then SuffixRow0() else
    if r == 1 then SuffixRow1() else
    if r == 2 then SuffixRow2() else
    if r == 3 then SuffixRow3() else
    if r == 4 then SuffixRow4() else
    if r == 5 then SuffixRow5() else
    if r == 6 then SuffixRow6() else
    if r == 7 then SuffixRow7() else
    if r == 8 then SuffixRow8() else
    if r == 9 then SuffixRow9() else
    if r == 10 then SuffixRow10() else
    if r == 11 then SuffixRow11() else
    if r == 12 then SuffixRow12() else
    if r == 13 then SuffixRow13() else
    if r == 14 then SuffixRow14() else
    SuffixRow15()
  }

  const SUFFIXES: seq<string> := seq(256, i requires 0 <= i < 256 => SuffixRow(i / 16)[i % 16])

  lemma SuffixesAreTable()
    ensures IsTable(SUFFIXES)
  {
    hide SuffixPosition, Code, SuffixRow;
    forall i | 0 <= i < 256
      ensures |SUFFIXES[i]| == 3 && '-' !in SUFFIXES[i] && SuffixPosition(Code(SUFFIXES[i])) == i
    {
      assert SuffixesInPlace(SuffixRow(i / 16), i / 16);
    }
  }

  const SYLLABLES := Syllables(PREFIXES, SUFFIXES)

  /** The program's own tables are tables of 256 distinct hyphen-free syllables. */
  lemma SyllablesValid()
    ensures Valid(SYLLABLES)
  {
    PrefixesAreTable();
    SuffixesAreTable();
  }

  /** So every 64-bit number is recovered from the name the program prints for it. */
  lemma EveryNameReadsBack(prf: Scrambler.Prf, i: Scrambler.dword)
    ensures Valid(SYLLABLES)
    ensures NumberOf(prf, SYLLABLES, NameOf(prf, SYLLABLES, i)) == Some(i)
  {
    SyllablesValid();
    hide Valid, NumberOf, NameOf;
    NameRoundTrip(prf, SYLLABLES, i);
  }
}
