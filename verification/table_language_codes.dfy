/**
 * The legacy table of language codes: for each ISO 639-1 code its ISO 639-2
 * B code, its ISO 639-2 T code where that differs, and a Windows identifier
 * where one is given (both empty otherwise), sorted by the alpha-2 code; and
 * the copies sorted by B code and by Windows identifier.
 *
 * The rows are written in chunks of 8, each with its own proof that its
 * alpha-2 codes are two lower-case letters in ascending order; the chunks
 * are then joined.
 */
module TableLanguageCodes {
  import opened Ascii
  import opened Sorting
  import opened SortedTable

  /** `ISO639`: one row of the table. */
  datatype Iso639 = Iso639(iso639_1: string, iso639_2b: string, iso639_2t: string, winId: string)

  function Iso639_1Of(r: Iso639): string { r.iso639_1 }

  /** Lines 32-39. */
  const Codes0: seq<Iso639> := [
    Iso639("aa", "aar", "", ""),
    Iso639("ab", "abk", "", ""),
    Iso639("ae", "ave", "", ""),
    Iso639("af", "afr", "", ""),
    Iso639("ak", "aka", "", ""),
    Iso639("am", "amh", "", ""),
    Iso639("an", "arg", "", ""),
    Iso639("ar", "ara", "", "")
  ]

  /** Lines 40-47. */
  const Codes1: seq<Iso639> := [
    Iso639("as", "asm", "", ""),
    Iso639("av", "ava", "", ""),
    Iso639("ay", "aym", "", ""),
    Iso639("az", "aze", "", ""),
    Iso639("ba", "bak", "", ""),
    Iso639("be", "bel", "", ""),
    Iso639("bg", "bul", "", ""),
    Iso639("bh", "bih", "", "")
  ]

  /** Lines 48-55. */
  const Codes2: seq<Iso639> := [
    Iso639("bi", "bis", "", ""),
    Iso639("bm", "bam", "", ""),
    Iso639("bn", "ben", "", ""),
    Iso639("bo", "tib", "", "bod"),
    Iso639("br", "bre", "", ""),
    Iso639("bs", "bos", "", ""),
    Iso639("ca", "cat", "", ""),
    Iso639("ce", "che", "", "")
  ]

  /** Lines 56-63. */
  const Codes3: seq<Iso639> := [
    Iso639("ch", "cha", "", ""),
    Iso639("co", "cos", "", ""),
    Iso639("cr", "cre", "", ""),
    Iso639("cs", "cze", "ces", "ces"),
    Iso639("cu", "chu", "", ""),
    Iso639("cv", "chv", "", ""),
    Iso639("cy", "wel", "", "cym"),
    Iso639("da", "dan", "", "")
  ]

  /** Lines 64-71. */
  const Codes4: seq<Iso639> := [
    Iso639("de", "ger", "deu", "deu"),
    Iso639("dv", "div", "", ""),
    Iso639("dz", "dzo", "", ""),
    Iso639("ee", "ewe", "", ""),
    Iso639("el", "gre", "ell", "ell"),
    Iso639("en", "eng", "", ""),
    Iso639("eo", "epo", "", ""),
    Iso639("es", "spa", "esp", "")
  ]

  /** Lines 72-79. */
  const Codes5: seq<Iso639> := [
    Iso639("et", "est", "", ""),
    Iso639("eu", "baq", "", "eus"),
    Iso639("fa", "per", "", "fas"),
    Iso639("ff", "ful", "", ""),
    Iso639("fi", "fin", "", ""),
    Iso639("fj", "fij", "", ""),
    Iso639("fo", "fao", "", ""),
    Iso639("fr", "fre", "fra", "fra")
  ]

  /** Lines 80-87. */
  const Codes6: seq<Iso639> := [
    Iso639("fy", "fry", "", ""),
    Iso639("ga", "gle", "", ""),
    Iso639("gd", "gla", "", ""),
    Iso639("gl", "glg", "", ""),
    Iso639("gn", "grn", "", ""),
    Iso639("gu", "guj", "", ""),
    Iso639("gv", "glv", "", ""),
    Iso639("ha", "hau", "", "")
  ]

  /** Lines 88-95. */
  const Codes7: seq<Iso639> := [
    Iso639("he", "heb", "", ""),
    Iso639("hi", "hin", "", ""),
    Iso639("ho", "hmo", "", ""),
    Iso639("hr", "hrv", "", ""),
    Iso639("ht", "hat", "", ""),
    Iso639("hu", "hun", "", ""),
    Iso639("hy", "arm", "", "hye"),
    Iso639("hz", "her", "", "")
  ]

  /** Lines 96-104. */
  const Codes8: seq<Iso639> := [
    Iso639("ia", "ina", "", ""),
    Iso639("id", "ind", "", ""),
    Iso639("ie", "ile", "", ""),
    Iso639("ig", "ibo", "", ""),
    Iso639("ii", "iii", "", ""),
    Iso639("ik", "ipk", "", ""),
    Iso639("in", "ind", "", ""),
    Iso639("io", "ido", "", "")
  ]

  /** Lines 105-113. */
  const Codes9: seq<Iso639> := [
    Iso639("is", "ice", "isl", "isl"),
    Iso639("it", "ita", "", ""),
    Iso639("iu", "iku", "", ""),
    Iso639("iw", "heb", "", ""),
    Iso639("ja", "jpn", "", ""),
    Iso639("jv", "jav", "", ""),
    Iso639("ka", "geo", "", "kat"),
    Iso639("kg", "kon", "", "")
  ]

  /** Lines 114-121. */
  const Codes10: seq<Iso639> := [
    Iso639("ki", "kik", "", ""),
    Iso639("kj", "kua", "", ""),
    Iso639("kk", "kaz", "", ""),
    Iso639("kl", "kal", "", ""),
    Iso639("km", "khm", "", ""),
    Iso639("kn", "kan", "", ""),
    Iso639("ko", "kor", "", ""),
    Iso639("kr", "kau", "", "")
  ]

  /** Lines 122-129. */
  const Codes11: seq<Iso639> := [
    Iso639("ks", "kas", "", ""),
    Iso639("ku", "kur", "", ""),
    Iso639("kv", "kom", "", ""),
    Iso639("kw", "cor", "", ""),
    Iso639("ky", "kir", "", ""),
    Iso639("la", "lat", "", ""),
    Iso639("lb", "ltz", "", ""),
    Iso639("lg", "lug", "", "")
  ]

  /** Lines 130-137. */
  const Codes12: seq<Iso639> := [
    Iso639("li", "lim", "", ""),
    Iso639("ln", "lin", "", ""),
    Iso639("lo", "lao", "", ""),
    Iso639("lt", "lit", "", ""),
    Iso639("lu", "lub", "", ""),
    Iso639("lv", "lav", "", ""),
    Iso639("mg", "mlg", "", ""),
    Iso639("mh", "mah", "", "")
  ]

  /** Lines 138-145. */
  const Codes13: seq<Iso639> := [
    Iso639("mi", "mao", "", "mri"),
    Iso639("mk", "mac", "", "mdk"),
    Iso639("ml", "mal", "", ""),
    Iso639("mn", "mon", "", ""),
    Iso639("mr", "mar", "", ""),
    Iso639("ms", "may", "", "msa"),
    Iso639("mt", "mlt", "", ""),
    Iso639("my", "bur", "", "mya")
  ]

  /** Lines 146-153. */
  const Codes14: seq<Iso639> := [
    Iso639("na", "nau", "", ""),
    Iso639("nb", "nob", "", ""),
    Iso639("nd", "nde", "", ""),
    Iso639("ne", "nep", "", ""),
    Iso639("ng", "ndo", "", ""),
    Iso639("nl", "dut", "nld", "nld"),
    Iso639("nn", "nno", "", ""),
    Iso639("no", "nor", "", "")
  ]

  /** Lines 154-161. */
  const Codes15: seq<Iso639> := [
    Iso639("nr", "nbl", "", ""),
    Iso639("nv", "nav", "", ""),
    Iso639("ny", "nya", "", ""),
    Iso639("oc", "oci", "", ""),
    Iso639("oj", "oji", "", ""),
    Iso639("om", "orm", "", ""),
    Iso639("or", "ori", "", ""),
    Iso639("os", "oss", "", "")
  ]

  /** Lines 162-170. */
  const Codes16: seq<Iso639> := [
    Iso639("pa", "pan", "", ""),
    Iso639("pb", "pob", "", ""),
    Iso639("pi", "pli", "", ""),
    Iso639("pl", "pol", "plk", ""),
    Iso639("ps", "pus", "", ""),
    Iso639("pt", "por", "ptg", ""),
    Iso639("qu", "que", "", ""),
    Iso639("rm", "roh", "", "")
  ]

  /** Lines 171-178. */
  const Codes17: seq<Iso639> := [
    Iso639("rn", "run", "", ""),
    Iso639("ro", "rum", "ron", "ron"),
    Iso639("ru", "rus", "", ""),
    Iso639("rw", "kin", "", ""),
    Iso639("sa", "san", "", ""),
    Iso639("sc", "srd", "", ""),
    Iso639("sd", "snd", "", ""),
    Iso639("se", "sme", "", "")
  ]

  /** Lines 179-186. */
  const Codes18: seq<Iso639> := [
    Iso639("sg", "sag", "", ""),
    Iso639("sh", "scr", "", ""),
    Iso639("si", "sin", "", ""),
    Iso639("sk", "slo", "sky", "slk"),
    Iso639("sl", "slv", "", ""),
    Iso639("sm", "smo", "", ""),
    Iso639("sn", "sna", "", ""),
    Iso639("so", "som", "", "")
  ]

  /** Lines 187-194. */
  const Codes19: seq<Iso639> := [
    Iso639("sq", "alb", "", "sqi"),
    Iso639("sr", "srp", "", ""),
    Iso639("ss", "ssw", "", ""),
    Iso639("st", "sot", "", ""),
    Iso639("su", "sun", "", ""),
    Iso639("sv", "swe", "sve", ""),
    Iso639("sw", "swa", "", ""),
    Iso639("ta", "tam", "", "")
  ]

  /** Lines 195-202. */
  const Codes20: seq<Iso639> := [
    Iso639("te", "tel", "", ""),
    Iso639("tg", "tgk", "", ""),
    Iso639("th", "tha", "", ""),
    Iso639("ti", "tir", "", ""),
    Iso639("tk", "tuk", "", ""),
    Iso639("tl", "tgl", "", ""),
    Iso639("tn", "tsn", "", ""),
    Iso639("to", "ton", "", "")
  ]

  /** Lines 203-210. */
  const Codes21: seq<Iso639> := [
    Iso639("tr", "tur", "trk", ""),
    Iso639("ts", "tso", "", ""),
    Iso639("tt", "tat", "", ""),
    Iso639("tw", "twi", "", ""),
    Iso639("ty", "tah", "", ""),
    Iso639("ug", "uig", "", ""),
    Iso639("uk", "ukr", "", ""),
    Iso639("ur", "urd", "", "")
  ]

  /** Lines 211-218. */
  const Codes22: seq<Iso639> := [
    Iso639("uz", "uzb", "", ""),
    Iso639("ve", "ven", "", ""),
    Iso639("vi", "vie", "", ""),
    Iso639("vo", "vol", "", ""),
    Iso639("wa", "wln", "", ""),
    Iso639("wo", "wol", "", ""),
    Iso639("xh", "xho", "", ""),
    Iso639("yi", "yid", "", "")
  ]

  /** Lines 219-226. */
  const Codes23: seq<Iso639> := [
    Iso639("yo", "yor", "", ""),
    Iso639("za", "zha", "", ""),
    Iso639("zh", "chi", "zho", "zho"),
    Iso639("zu", "zul", "", ""),
    Iso639("zv", "und", "", ""),
    Iso639("zx", "zxx", "", ""),
    Iso639("zy", "mis", "", ""),
    Iso639("zz", "mul", "", "")
  ]

  lemma Codes0Ascending()
    ensures Alpha2Ascending(Codes0, Iso639_1Of)
  {
    forall i | 0 <= i < |Codes0|
      ensures IsAlpha2(Iso639_1Of(Codes0[i]))
      ensures i + 1 < |Codes0| ==> IsAlpha2(Iso639_1Of(Codes0[i + 1])) && PairLess(Iso639_1Of(Codes0[i]), Iso639_1Of(Codes0[i + 1]))
    {
      if i == 0 { } else if i == 1 { } else if i == 2 { } else if i == 3 { } else if i == 4 { } else if i == 5 { } else if i == 6 { } else { }
    }
  }

  lemma Codes1Ascending()
    ensures Alpha2Ascending(Codes1, Iso639_1Of)
  {
    forall i | 0 <= i < |Codes1|
      ensures IsAlpha2(Iso639_1Of(Codes1[i]))
      ensures i + 1 < |Codes1| ==> IsAlpha2(Iso639_1Of(Codes1[i + 1])) && PairLess(Iso639_1Of(Codes1[i]), Iso639_1Of(Codes1[i + 1]))
    {
      if i == 0 { } else if i == 1 { } else if i == 2 { } else if i == 3 { } else if i == 4 { } else if i == 5 { } else if i == 6 { } else { }
    }
  }

  lemma Codes2Ascending()
    ensures Alpha2Ascending(Codes2, Iso639_1Of)
  {
    forall i | 0 <= i < |Codes2|
      ensures IsAlpha2(Iso639_1Of(Codes2[i]))
      ensures i + 1 < |Codes2| ==> IsAlpha2(Iso639_1Of(Codes2[i + 1])) && PairLess(Iso639_1Of(Codes2[i]), Iso639_1Of(Codes2[i + 1]))
    {
      if i == 0 { } else if i == 1 { } else if i == 2 { } else if i == 3 { } else if i == 4 { } else if i == 5 { } else if i == 6 { } else { }
    }
  }

  lemma Codes3Ascending()
    ensures Alpha2Ascending(Codes3, Iso639_1Of)
  {
    forall i | 0 <= i < |Codes3|
      ensures IsAlpha2(Iso639_1Of(Codes3[i]))
      ensures i + 1 < |Codes3| ==> IsAlpha2(Iso639_1Of(Codes3[i + 1])) && PairLess(Iso639_1Of(Codes3[i]), Iso639_1Of(Codes3[i + 1]))
    {
      if i == 0 { } else if i == 1 { } else if i == 2 { } else if i == 3 { } else if i == 4 { } else if i == 5 { } else if i == 6 { } else { }
    }
  }

  lemma Codes4Ascending()
    ensures Alpha2Ascending(Codes4, Iso639_1Of)
  {
    forall i | 0 <= i < |Codes4|
      ensures IsAlpha2(Iso639_1Of(Codes4[i]))
      ensures i + 1 < |Codes4| ==> IsAlpha2(Iso639_1Of(Codes4[i + 1])) && PairLess(Iso639_1Of(Codes4[i]), Iso639_1Of(Codes4[i + 1]))
    {
      if i == 0 { } else if i == 1 { } else if i == 2 { } else if i == 3 { } else if i == 4 { } else if i == 5 { } else if i == 6 { } else { }
    }
  }

  lemma Codes5Ascending()
    ensures Alpha2Ascending(Codes5, Iso639_1Of)
  {
    forall i | 0 <= i < |Codes5|
      ensures IsAlpha2(Iso639_1Of(Codes5[i]))
      ensures i + 1 < |Codes5| ==> IsAlpha2(Iso639_1Of(Codes5[i + 1])) && PairLess(Iso639_1Of(Codes5[i]), Iso639_1Of(Codes5[i + 1]))
    {
      if i == 0 { } else if i == 1 { } else if i == 2 { } else if i == 3 { } else if i == 4 { } else if i == 5 { } else if i == 6 { } else { }
    }
  }

  lemma Codes6Ascending()
    ensures Alpha2Ascending(Codes6, Iso639_1Of)
  {
    forall i | 0 <= i < |Codes6|
      ensures IsAlpha2(Iso639_1Of(Codes6[i]))
      ensures i + 1 < |Codes6| ==> IsAlpha2(Iso639_1Of(Codes6[i + 1])) && PairLess(Iso639_1Of(Codes6[i]), Iso639_1Of(Codes6[i + 1]))
    {
      if i == 0 { } else if i == 1 { } else if i == 2 { } else if i == 3 { } else if i == 4 { } else if i == 5 { } else if i == 6 { } else { }
    }
  }

  lemma Codes7Ascending()
    ensures Alpha2Ascending(Codes7, Iso639_1Of)
  {
    forall i | 0 <= i < |Codes7|
      ensures IsAlpha2(Iso639_1Of(Codes7[i]))
      ensures i + 1 < |Codes7| ==> IsAlpha2(Iso639_1Of(Codes7[i + 1])) && PairLess(Iso639_1Of(Codes7[i]), Iso639_1Of(Codes7[i + 1]))
    {
      if i == 0 { } else if i == 1 { } else if i == 2 { } else if i == 3 { } else if i == 4 { } else if i == 5 { } else if i == 6 { } else { }
    }
  }

  lemma Codes8Ascending()
    ensures Alpha2Ascending(Codes8, Iso639_1Of)
  {
    forall i | 0 <= i < |Codes8|
      ensures IsAlpha2(Iso639_1Of(Codes8[i]))
      ensures i + 1 < |Codes8| ==> IsAlpha2(Iso639_1Of(Codes8[i + 1])) && PairLess(Iso639_1Of(Codes8[i]), Iso639_1Of(Codes8[i + 1]))
    {
      if i == 0 { } else if i == 1 { } else if i == 2 { } else if i == 3 { } else if i == 4 { } else if i == 5 { } else if i == 6 { } else { }
    }
  }

  lemma Codes9Ascending()
    ensures Alpha2Ascending(Codes9, Iso639_1Of)
  {
    forall i | 0 <= i < |Codes9|
      ensures IsAlpha2(Iso639_1Of(Codes9[i]))
      ensures i + 1 < |Codes9| ==> IsAlpha2(Iso639_1Of(Codes9[i + 1])) && PairLess(Iso639_1Of(Codes9[i]), Iso639_1Of(Codes9[i + 1]))
    {
      if i == 0 { } else if i == 1 { } else if i == 2 { } else if i == 3 { } else if i == 4 { } else if i == 5 { } else if i == 6 { } else { }
    }
  }

  lemma Codes10Ascending()
    ensures Alpha2Ascending(Codes10, Iso639_1Of)
  {
    forall i | 0 <= i < |Codes10|
      ensures IsAlpha2(Iso639_1Of(Codes10[i]))
      ensures i + 1 < |Codes10| ==> IsAlpha2(Iso639_1Of(Codes10[i + 1])) && PairLess(Iso639_1Of(Codes10[i]), Iso639_1Of(Codes10[i + 1]))
    {
      if i == 0 { } else if i == 1 { } else if i == 2 { } else if i == 3 { } else if i == 4 { } else if i == 5 { } else if i == 6 { } else { }
    }
  }

  lemma Codes11Ascending()
    ensures Alpha2Ascending(Codes11, Iso639_1Of)
  {
    forall i | 0 <= i < |Codes11|
      ensures IsAlpha2(Iso639_1Of(Codes11[i]))
      ensures i + 1 < |Codes11| ==> IsAlpha2(Iso639_1Of(Codes11[i + 1])) && PairLess(Iso639_1Of(Codes11[i]), Iso639_1Of(Codes11[i + 1]))
    {
      if i == 0 { } else if i == 1 { } else if i == 2 { } else if i == 3 { } else if i == 4 { } else if i == 5 { } else if i == 6 { } else { }
    }
  }

  lemma Codes12Ascending()
    ensures Alpha2Ascending(Codes12, Iso639_1Of)
  {
    forall i | 0 <= i < |Codes12|
      ensures IsAlpha2(Iso639_1Of(Codes12[i]))
      ensures i + 1 < |Codes12| ==> IsAlpha2(Iso639_1Of(Codes12[i + 1])) && PairLess(Iso639_1Of(Codes12[i]), Iso639_1Of(Codes12[i + 1]))
    {
      if i == 0 { } else if i == 1 { } else if i == 2 { } else if i == 3 { } else if i == 4 { } else if i == 5 { } else if i == 6 { } else { }
    }
  }

  lemma Codes13Ascending()
    ensures Alpha2Ascending(Codes13, Iso639_1Of)
  {
    forall i | 0 <= i < |Codes13|
      ensures IsAlpha2(Iso639_1Of(Codes13[i]))
      ensures i + 1 < |Codes13| ==> IsAlpha2(Iso639_1Of(Codes13[i + 1])) && PairLess(Iso639_1Of(Codes13[i]), Iso639_1Of(Codes13[i + 1]))
    {
      if i == 0 { } else if i == 1 { } else if i == 2 { } else if i == 3 { } else if i == 4 { } else if i == 5 { } else if i == 6 { } else { }
    }
  }

  lemma Codes14Ascending()
    ensures Alpha2Ascending(Codes14, Iso639_1Of)
  {
    forall i | 0 <= i < |Codes14|
      ensures IsAlpha2(Iso639_1Of(Codes14[i]))
      ensures i + 1 < |Codes14| ==> IsAlpha2(Iso639_1Of(Codes14[i + 1])) && PairLess(Iso639_1Of(Codes14[i]), Iso639_1Of(Codes14[i + 1]))
    {
      if i == 0 { } else if i == 1 { } else if i == 2 { } else if i == 3 { } else if i == 4 { } else if i == 5 { } else if i == 6 { } else { }
    }
  }

  lemma Codes15Ascending()
    ensures Alpha2Ascending(Codes15, Iso639_1Of)
  {
    forall i | 0 <= i < |Codes15|
      ensures IsAlpha2(Iso639_1Of(Codes15[i]))
      ensures i + 1 < |Codes15| ==> IsAlpha2(Iso639_1Of(Codes15[i + 1])) && PairLess(Iso639_1Of(Codes15[i]), Iso639_1Of(Codes15[i + 1]))
    {
      if i == 0 { } else if i == 1 { } else if i == 2 { } else if i == 3 { } else if i == 4 { } else if i == 5 { } else if i == 6 { } else { }
    }
  }

  lemma Codes16Ascending()
    ensures Alpha2Ascending(Codes16, Iso639_1Of)
  {
    forall i | 0 <= i < |Codes16|
      ensures IsAlpha2(Iso639_1Of(Codes16[i]))
      ensures i + 1 < |Codes16| ==> IsAlpha2(Iso639_1Of(Codes16[i + 1])) && PairLess(Iso639_1Of(Codes16[i]), Iso639_1Of(Codes16[i + 1]))
    {
      if i == 0 { } else if i == 1 { } else if i == 2 { } else if i == 3 { } else if i == 4 { } else if i == 5 { } else if i == 6 { } else { }
    }
  }

  lemma Codes17Ascending()
    ensures Alpha2Ascending(Codes17, Iso639_1Of)
  {
    forall i | 0 <= i < |Codes17|
      ensures IsAlpha2(Iso639_1Of(Codes17[i]))
      ensures i + 1 < |Codes17| ==> IsAlpha2(Iso639_1Of(Codes17[i + 1])) && PairLess(Iso639_1Of(Codes17[i]), Iso639_1Of(Codes17[i + 1]))
    {
      if i == 0 { } else if i == 1 { } else if i == 2 { } else if i == 3 { } else if i == 4 { } else if i == 5 { } else if i == 6 { } else { }
    }
  }

  lemma Codes18Ascending()
    ensures Alpha2Ascending(Codes18, Iso639_1Of)
  {
    forall i | 0 <= i < |Codes18|
      ensures IsAlpha2(Iso639_1Of(Codes18[i]))
      ensures i + 1 < |Codes18| ==> IsAlpha2(Iso639_1Of(Codes18[i + 1])) && PairLess(Iso639_1Of(Codes18[i]), Iso639_1Of(Codes18[i + 1]))
    {
      if i == 0 { } else if i == 1 { } else if i == 2 { } else if i == 3 { } else if i == 4 { } else if i == 5 { } else if i == 6 { } else { }
    }
  }

  lemma Codes19Ascending()
    ensures Alpha2Ascending(Codes19, Iso639_1Of)
  {
    forall i | 0 <= i < |Codes19|
      ensures IsAlpha2(Iso639_1Of(Codes19[i]))
      ensures i + 1 < |Codes19| ==> IsAlpha2(Iso639_1Of(Codes19[i + 1])) && PairLess(Iso639_1Of(Codes19[i]), Iso639_1Of(Codes19[i + 1]))
    {
      if i == 0 { } else if i == 1 { } else if i == 2 { } else if i == 3 { } else if i == 4 { } else if i == 5 { } else if i == 6 { } else { }
    }
  }

  lemma Codes20Ascending()
    ensures Alpha2Ascending(Codes20, Iso639_1Of)
  {
    forall i | 0 <= i < |Codes20|
      ensures IsAlpha2(Iso639_1Of(Codes20[i]))
      ensures i + 1 < |Codes20| ==> IsAlpha2(Iso639_1Of(Codes20[i + 1])) && PairLess(Iso639_1Of(Codes20[i]), Iso639_1Of(Codes20[i + 1]))
    {
      if i == 0 { } else if i == 1 { } else if i == 2 { } else if i == 3 { } else if i == 4 { } else if i == 5 { } else if i == 6 { } else { }
    }
  }

  lemma Codes21Ascending()
    ensures Alpha2Ascending(Codes21, Iso639_1Of)
  {
    forall i | 0 <= i < |Codes21|
      ensures IsAlpha2(Iso639_1Of(Codes21[i]))
      ensures i + 1 < |Codes21| ==> IsAlpha2(Iso639_1Of(Codes21[i + 1])) && PairLess(Iso639_1Of(Codes21[i]), Iso639_1Of(Codes21[i + 1]))
    {
      if i == 0 { } else if i == 1 { } else if i == 2 { } else if i == 3 { } else if i == 4 { } else if i == 5 { } else if i == 6 { } else { }
    }
  }

  lemma Codes22Ascending()
    ensures Alpha2Ascending(Codes22, Iso639_1Of)
  {
    forall i | 0 <= i < |Codes22|
      ensures IsAlpha2(Iso639_1Of(Codes22[i]))
      ensures i + 1 < |Codes22| ==> IsAlpha2(Iso639_1Of(Codes22[i + 1])) && PairLess(Iso639_1Of(Codes22[i]), Iso639_1Of(Codes22[i + 1]))
    {
      if i == 0 { } else if i == 1 { } else if i == 2 { } else if i == 3 { } else if i == 4 { } else if i == 5 { } else if i == 6 { } else { }
    }
  }

  lemma Codes23Ascending()
    ensures Alpha2Ascending(Codes23, Iso639_1Of)
  {
    forall i | 0 <= i < |Codes23|
      ensures IsAlpha2(Iso639_1Of(Codes23[i]))
      ensures i + 1 < |Codes23| ==> IsAlpha2(Iso639_1Of(Codes23[i + 1])) && PairLess(Iso639_1Of(Codes23[i]), Iso639_1Of(Codes23[i + 1]))
    {
      if i == 0 { } else if i == 1 { } else if i == 2 { } else if i == 3 { } else if i == 4 { } else if i == 5 { } else if i == 6 { } else { }
    }
  }

  /** `LANGUAGE_CODES_COUNT`. */
  const LanguageCodesCount := 192

  /** `LanguageCodes`. */
  const CodesGroup0: seq<Iso639> := Codes0 + (Codes1 + (Codes2 + (Codes3 + (Codes4 + Codes5))))
  const CodesGroup1: seq<Iso639> := Codes6 + (Codes7 + (Codes8 + (Codes9 + (Codes10 + Codes11))))
  const CodesGroup2: seq<Iso639> := Codes12 + (Codes13 + (Codes14 + (Codes15 + (Codes16 + Codes17))))
  const CodesGroup3: seq<Iso639> := Codes18 + (Codes19 + (Codes20 + (Codes21 + (Codes22 + Codes23))))

  const LanguageCodes: seq<Iso639> := CodesGroup0 + (CodesGroup1 + (CodesGroup2 + CodesGroup3))

  lemma CodesGroup0Ascending()
    ensures Alpha2Ascending(CodesGroup0, Iso639_1Of)
  {
    Codes5Ascending();
    Codes4Ascending();
    Alpha2AscendingAppend(Codes4, Codes5, Iso639_1Of);
    Codes3Ascending();
    assert (Codes4 + Codes5)[0] == Codes4[0];
    Alpha2AscendingAppend(Codes3, Codes4 + Codes5, Iso639_1Of);
    Codes2Ascending();
    assert (Codes3 + (Codes4 + Codes5))[0] == Codes3[0];
    Alpha2AscendingAppend(Codes2, Codes3 + (Codes4 + Codes5), Iso639_1Of);
    Codes1Ascending();
    assert (Codes2 + (Codes3 + (Codes4 + Codes5)))[0] == Codes2[0];
    Alpha2AscendingAppend(Codes1, Codes2 + (Codes3 + (Codes4 + Codes5)), Iso639_1Of);
    Codes0Ascending();
    assert (Codes1 + (Codes2 + (Codes3 + (Codes4 + Codes5))))[0] == Codes1[0];
    Alpha2AscendingAppend(Codes0, Codes1 + (Codes2 + (Codes3 + (Codes4 + Codes5))), Iso639_1Of);
  }

  lemma CodesGroup1Ascending()
    ensures Alpha2Ascending(CodesGroup1, Iso639_1Of)
  {
    Codes11Ascending();
    Codes10Ascending();
    Alpha2AscendingAppend(Codes10, Codes11, Iso639_1Of);
    Codes9Ascending();
    assert (Codes10 + Codes11)[0] == Codes10[0];
    Alpha2AscendingAppend(Codes9, Codes10 + Codes11, Iso639_1Of);
    Codes8Ascending();
    assert (Codes9 + (Codes10 + Codes11))[0] == Codes9[0];
    Alpha2AscendingAppend(Codes8, Codes9 + (Codes10 + Codes11), Iso639_1Of);
    Codes7Ascending();
    assert (Codes8 + (Codes9 + (Codes10 + Codes11)))[0] == Codes8[0];
    Alpha2AscendingAppend(Codes7, Codes8 + (Codes9 + (Codes10 + Codes11)), Iso639_1Of);
    Codes6Ascending();
    assert (Codes7 + (Codes8 + (Codes9 + (Codes10 + Codes11))))[0] == Codes7[0];
    Alpha2AscendingAppend(Codes6, Codes7 + (Codes8 + (Codes9 + (Codes10 + Codes11))), Iso639_1Of);
  }

  lemma CodesGroup2Ascending()
    ensures Alpha2Ascending(CodesGroup2, Iso639_1Of)
  {
    Codes17Ascending();
    Codes16Ascending();
    Alpha2AscendingAppend(Codes16, Codes17, Iso639_1Of);
    Codes15Ascending();
    assert (Codes16 + Codes17)[0] == Codes16[0];
    Alpha2AscendingAppend(Codes15, Codes16 + Codes17, Iso639_1Of);
    Codes14Ascending();
    assert (Codes15 + (Codes16 + Codes17))[0] == Codes15[0];
    Alpha2AscendingAppend(Codes14, Codes15 + (Codes16 + Codes17), Iso639_1Of);
    Codes13Ascending();
    assert (Codes14 + (Codes15 + (Codes16 + Codes17)))[0] == Codes14[0];
    Alpha2AscendingAppend(Codes13, Codes14 + (Codes15 + (Codes16 + Codes17)), Iso639_1Of);
    Codes12Ascending();
    assert (Codes13 + (Codes14 + (Codes15 + (Codes16 + Codes17))))[0] == Codes13[0];
    Alpha2AscendingAppend(Codes12, Codes13 + (Codes14 + (Codes15 + (Codes16 + Codes17))), Iso639_1Of);
  }

  lemma CodesGroup3Ascending()
    ensures Alpha2Ascending(CodesGroup3, Iso639_1Of)
  {
    Codes23Ascending();
    Codes22Ascending();
    Alpha2AscendingAppend(Codes22, Codes23, Iso639_1Of);
    Codes21Ascending();
    assert (Codes22 + Codes23)[0] == Codes22[0];
    Alpha2AscendingAppend(Codes21, Codes22 + Codes23, Iso639_1Of);
    Codes20Ascending();
    assert (Codes21 + (Codes22 + Codes23))[0] == Codes21[0];
    Alpha2AscendingAppend(Codes20, Codes21 + (Codes22 + Codes23), Iso639_1Of);
    Codes19Ascending();
    assert (Codes20 + (Codes21 + (Codes22 + Codes23)))[0] == Codes20[0];
    Alpha2AscendingAppend(Codes19, Codes20 + (Codes21 + (Codes22 + Codes23)), Iso639_1Of);
    Codes18Ascending();
    assert (Codes19 + (Codes20 + (Codes21 + (Codes22 + Codes23))))[0] == Codes19[0];
    Alpha2AscendingAppend(Codes18, Codes19 + (Codes20 + (Codes21 + (Codes22 + Codes23))), Iso639_1Of);
  }

  /** The alpha-2 codes ascend strictly, so the table is sorted by them as the `static_assert` demands. */
  lemma LanguageCodesSorted()
    ensures |LanguageCodes| == LanguageCodesCount
    ensures Ascending(LanguageCodes, Iso639_1Of)
    ensures IsSorted(LanguageCodes, Iso639_1Of)
  {
    CodesGroup3Ascending();
    CodesGroup2Ascending();
    assert CodesGroup2[|CodesGroup2| - 1] == Codes17[|Codes17| - 1];
    assert CodesGroup3[0] == Codes18[0];
    Alpha2AscendingAppend(CodesGroup2, CodesGroup3, Iso639_1Of);
    CodesGroup1Ascending();
    assert CodesGroup1[|CodesGroup1| - 1] == Codes11[|Codes11| - 1];
    assert (CodesGroup2 + CodesGroup3)[0] == Codes12[0];
    Alpha2AscendingAppend(CodesGroup1, CodesGroup2 + CodesGroup3, Iso639_1Of);
    CodesGroup0Ascending();
    assert CodesGroup0[|CodesGroup0| - 1] == Codes5[|Codes5| - 1];
    assert (CodesGroup1 + (CodesGroup2 + CodesGroup3))[0] == Codes6[0];
    Alpha2AscendingAppend(CodesGroup0, CodesGroup1 + (CodesGroup2 + CodesGroup3), Iso639_1Of);
    Alpha2AscendingIsAscending(LanguageCodes, Iso639_1Of);
    AscendingDistinct(LanguageCodes, Iso639_1Of);
  }

  predicate Iso639_2bLe(x: Iso639, y: Iso639) { LexLe(x.iso639_2b, y.iso639_2b) }

  predicate WinIdLe(x: Iso639, y: Iso639) { LexLe(x.winId, y.winId) }

  lemma KeyOrdersTotal()
    ensures TotalPreorder(Iso639_2bLe) && TotalPreorder(WinIdLe)
  {
    LexLeTotalOrder();
  }

  lemma SameKeyEquivalent(x: Iso639, y: Iso639)
    ensures x.iso639_2b == y.iso639_2b ==> Iso639_2bLe(x, y) && Iso639_2bLe(y, x)
  {
    LexLeTotalOrder();
  }

  /** The rows sorted by B code with `std::ranges::sort`, which is not stable. */
  function SortedByIso639_2b(rows: seq<Iso639>): (r: seq<Iso639>)
    ensures IsSortingOf(r, rows, Iso639_2bLe)
  {
    KeyOrdersTotal();
    SortBy(rows, Iso639_2bLe)
  }

  /** `CreateLanguageCodesSortedByIso639_2b`: the table sorted by B code. */
  function CreateLanguageCodesSortedByIso639_2b(): (r: seq<Iso639>)
    ensures IsSortingOf(r, LanguageCodes, Iso639_2bLe)
  {
    SortedByIso639_2b(LanguageCodes)
  }

  /**
   * Two different rows with the same B code leave the sorted order open:
   * exchanging them gives another admissible result of the unstable sort.
   * The table has two such pairs (see `Iso639_2bNotUnique`).
   */
  lemma SharedBCodeNotDetermined(rows: seq<Iso639>, i: nat, j: nat)
    requires i < |rows| && j < |rows|
    requires rows[i].iso639_2b == rows[j].iso639_2b && rows[i] != rows[j]
    ensures exists r :: IsSortingOf(r, rows, Iso639_2bLe) && r != SortedByIso639_2b(rows)
  {
    KeyOrdersTotal();
    SameKeyEquivalent(rows[i], rows[j]);
    SortingNotUnique(SortedByIso639_2b(rows), rows, Iso639_2bLe, i, j);
  }

  /** `CreateLanguageCodesSortedByWin_Id`: the table sorted by Windows identifier. */
  function CreateLanguageCodesSortedByWin_Id(): (r: seq<Iso639>)
    ensures IsSortingOf(r, LanguageCodes, WinIdLe)
  {
    KeyOrdersTotal();
    SortBy(LanguageCodes, WinIdLe)
  }

  /**
   * The B code is not a key: "ind" is the B code of "id" (`TableLanguageCodes.h` line 97) and of the
   * deprecated "in" (line 103), "heb" of "he" (line 88) and of the deprecated
   * "iw" (line 109).
   */
  lemma Iso639_2bNotUnique()
    ensures |LanguageCodes| == LanguageCodesCount
    ensures LanguageCodes[65].iso639_2b == LanguageCodes[70].iso639_2b == "ind"
    ensures LanguageCodes[56].iso639_2b == LanguageCodes[75].iso639_2b == "heb"
    ensures LanguageCodes[65] != LanguageCodes[70] && LanguageCodes[56] != LanguageCodes[75]
  {
    assert LanguageCodes[65] == CodesGroup1[17] == Codes8[1] && LanguageCodes[70] == CodesGroup1[22] == Codes8[6];
    assert LanguageCodes[56] == CodesGroup1[8] == Codes7[0] && LanguageCodes[75] == CodesGroup1[27] == Codes9[3];
  }

  /** The Kodi rows map the made-up alpha-2 codes to the special ISO 639-2 codes (lines 223-226). */
  lemma KodiRows()
    ensures LanguageCodes[188..] == [
      Iso639("zv", "und", "", ""), Iso639("zx", "zxx", "", ""),
      Iso639("zy", "mis", "", ""), Iso639("zz", "mul", "", "")]
  {
    LanguageCodesSorted();
    KodiRowsLow();
    KodiRowsHigh();
  }

  lemma KodiRowsLow()
    ensures |LanguageCodes| == 192
    ensures LanguageCodes[188] == Iso639("zv", "und", "", "") && LanguageCodes[189] == Iso639("zx", "zxx", "", "")
  {
    assert LanguageCodes[188] == CodesGroup3[44] == Codes23[4];
    assert LanguageCodes[189] == CodesGroup3[45] == Codes23[5];
  }

  lemma KodiRowsHigh()
    ensures |LanguageCodes| == 192
    ensures LanguageCodes[190] == Iso639("zy", "mis", "", "") && LanguageCodes[191] == Iso639("zz", "mul", "", "")
  {
    assert LanguageCodes[190] == CodesGroup3[46] == Codes23[6];
    assert LanguageCodes[191] == CodesGroup3[47] == Codes23[7];
  }
}
