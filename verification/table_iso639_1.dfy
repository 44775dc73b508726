/**
 * The ISO 639-1 code table: 183 active codes sorted by alpha-2 followed by
 * one Kodi addition, and the table of deprecated codes, each row an
 * alpha-2 code with its English name; the rows become `LCENTRY` values by
 * packing the code with `StringToLongCode`.
 *
 * The active rows are written in chunks of at most 8, each with its own
 * proof that its codes are two lower-case letters in ascending order; the
 * chunks are then joined.
 */
module TableIso639_1 {
  import opened Ascii
  import opened Sorting
  import opened SortedTable
  import opened TableIso639

  /** A row as written in the table: alpha-2 code and English name. */
  datatype Row = Row(alpha2: string, name: string)

  function Alpha2(r: Row): string { r.alpha2 }

  /** Lines 52-59. */
  const Active0: seq<Row> := [
    Row("aa", "Afar"),
    Row("ab", "Abkhazian"),
    Row("ae", "Avestan"),
    Row("af", "Afrikaans"),
    Row("ak", "Akan"),
    Row("am", "Amharic"),
    Row("an", "Aragonese"),
    Row("ar", "Arabic")
  ]

  /** Lines 60-67. */
  const Active1: seq<Row> := [
    Row("as", "Assamese"),
    Row("av", "Avaric"),
    Row("ay", "Aymara"),
    Row("az", "Azerbaijani"),
    Row("ba", "Bashkir"),
    Row("be", "Belarusian"),
    Row("bg", "Bulgarian"),
    Row("bi", "Bislama")
  ]

  /** Lines 68-75. */
  const Active2: seq<Row> := [
    Row("bm", "Bambara"),
    Row("bn", "Bengali; Bangla"),
    Row("bo", "Tibetan"),
    Row("br", "Breton"),
    Row("bs", "Bosnian"),
    Row("ca", "Catalan"),
    Row("ce", "Chechen"),
    Row("ch", "Chamorro")
  ]

  /** Lines 76-83. */
  const Active3: seq<Row> := [
    Row("co", "Corsican"),
    Row("cr", "Cree"),
    Row("cs", "Czech"),
    Row("cu", "Church Slavic"),
    Row("cv", "Chuvash"),
    Row("cy", "Welsh"),
    Row("da", "Danish"),
    Row("de", "German")
  ]

  /** Lines 84-91. */
  const Active4: seq<Row> := [
    Row("dv", "Dhivehi"),
    Row("dz", "Dzongkha"),
    Row("ee", "Ewe"),
    Row("el", "Greek"),
    Row("en", "English"),
    Row("eo", "Esperanto"),
    Row("es", "Spanish"),
    Row("et", "Estonian")
  ]

  /** Lines 92-99. */
  const Active5: seq<Row> := [
    Row("eu", "Basque"),
    Row("fa", "Persian"),
    Row("ff", "Fulah"),
    Row("fi", "Finnish"),
    Row("fj", "Fijian"),
    Row("fo", "Faroese"),
    Row("fr", "French"),
    Row("fy", "Western Frisian")
  ]

  /** Lines 100-107. */
  const Active6: seq<Row> := [
    Row("ga", "Irish"),
    Row("gd", "Scottish Gaelic"),
    Row("gl", "Galician"),
    Row("gn", "Guarani"),
    Row("gu", "Gujarati"),
    Row("gv", "Manx"),
    Row("ha", "Hausa"),
    Row("he", "Hebrew")
  ]

  /** Lines 108-115. */
  const Active7: seq<Row> := [
    Row("hi", "Hindi"),
    Row("ho", "Hiri Motu"),
    Row("hr", "Croatian"),
    Row("ht", "Haitian"),
    Row("hu", "Hungarian"),
    Row("hy", "Armenian"),
    Row("hz", "Herero"),
    Row("ia", "Interlingua")
  ]

  /** Lines 116-123. */
  const Active8: seq<Row> := [
    Row("id", "Indonesian"),
    Row("ie", "Interlingue"),
    Row("ig", "Igbo"),
    Row("ii", "Sichuan Yi"),
    Row("ik", "Inupiat"),
    Row("io", "Ido"),
    Row("is", "Icelandic"),
    Row("it", "Italian")
  ]

  /** Lines 124-131. */
  const Active9: seq<Row> := [
    Row("iu", "Inuktitut"),
    Row("ja", "Japanese"),
    Row("jv", "Javanese"),
    Row("ka", "Georgian"),
    Row("kg", "Kongo"),
    Row("ki", "Kikuyu"),
    Row("kj", "Kuanyama"),
    Row("kk", "Kazakh")
  ]

  /** Lines 132-139. */
  const Active10: seq<Row> := [
    Row("kl", "Kalaallisut"),
    Row("km", "Khmer"),
    Row("kn", "Kannada"),
    Row("ko", "Korean"),
    Row("kr", "Kanuri"),
    Row("ks", "Kashmiri"),
    Row("ku", "Kurdish"),
    Row("kv", "Komi")
  ]

  /** Lines 140-147. */
  const Active11: seq<Row> := [
    Row("kw", "Cornish"),
    Row("ky", "Kirghiz"),
    Row("la", "Latin"),
    Row("lb", "Luxembourgish"),
    Row("lg", "Ganda"),
    Row("li", "Limburgan"),
    Row("ln", "Lingala"),
    Row("lo", "Lao")
  ]

  /** Lines 148-155. */
  const Active12: seq<Row> := [
    Row("lt", "Lithuanian"),
    Row("lu", "Luba-Katanga"),
    Row("lv", "Latvian, Lettish"),
    Row("mg", "Malagasy"),
    Row("mh", "Marshallese"),
    Row("mi", "Maori"),
    Row("mk", "Macedonian"),
    Row("ml", "Malayalam")
  ]

  /** Lines 156-163. */
  const Active13: seq<Row> := [
    Row("mn", "Mongolian"),
    Row("mr", "Marathi"),
    Row("ms", "Malay"),
    Row("mt", "Maltese"),
    Row("my", "Burmese"),
    Row("na", "Nauru"),
    Row("nb", "Norwegian Bokmål"),
    Row("nd", "Ndebele, North")
  ]

  /** Lines 164-171. */
  const Active14: seq<Row> := [
    Row("ne", "Nepali"),
    Row("ng", "Ndonga"),
    Row("nl", "Dutch"),
    Row("nn", "Norwegian Nynorsk"),
    Row("no", "Norwegian"),
    Row("nr", "Ndebele, South"),
    Row("nv", "Navajo"),
    Row("ny", "Chichewa")
  ]

  /** Lines 172-179. */
  const Active15: seq<Row> := [
    Row("oc", "Occitan"),
    Row("oj", "Ojibwa"),
    Row("om", "Oromo"),
    Row("or", "Oriya"),
    Row("os", "Ossetic"),
    Row("pa", "Punjabi"),
    Row("pi", "Pali"),
    Row("pl", "Polish")
  ]

  /** Lines 180-187. */
  const Active16: seq<Row> := [
    Row("ps", "Pashto, Pushto"),
    Row("pt", "Portuguese"),
    Row("qu", "Quechua"),
    Row("rm", "Romansh"),
    Row("rn", "Kirundi"),
    Row("ro", "Romanian"),
    Row("ru", "Russian"),
    Row("rw", "Kinyarwanda")
  ]

  /** Lines 188-195. */
  const Active17: seq<Row> := [
    Row("sa", "Sanskrit"),
    Row("sc", "Sardinian"),
    Row("sd", "Sindhi"),
    Row("se", "Northern Sami"),
    Row("sg", "Sangho"),
    Row("si", "Sinhalese"),
    Row("sk", "Slovak"),
    Row("sl", "Slovenian")
  ]

  /** Lines 196-203. */
  const Active18: seq<Row> := [
    Row("sm", "Samoan"),
    Row("sn", "Shona"),
    Row("so", "Somali"),
    Row("sq", "Albanian"),
    Row("sr", "Serbian"),
    Row("ss", "Swati"),
    Row("st", "Sesotho"),
    Row("su", "Sundanese")
  ]

  /** Lines 204-211. */
  const Active19: seq<Row> := [
    Row("sv", "Swedish"),
    Row("sw", "Swahili"),
    Row("ta", "Tamil"),
    Row("te", "Telugu"),
    Row("tg", "Tajik"),
    Row("th", "Thai"),
    Row("ti", "Tigrinya"),
    Row("tk", "Turkmen")
  ]

  /** Lines 212-219. */
  const Active20: seq<Row> := [
    Row("tl", "Tagalog"),
    Row("tn", "Tswana"),
    Row("to", "Tonga"),
    Row("tr", "Turkish"),
    Row("ts", "Tsonga"),
    Row("tt", "Tatar"),
    Row("tw", "Twi"),
    Row("ty", "Tahitian")
  ]

  /** Lines 220-227. */
  const Active21: seq<Row> := [
    Row("ug", "Uighur"),
    Row("uk", "Ukrainian"),
    Row("ur", "Urdu"),
    Row("uz", "Uzbek"),
    Row("ve", "Venda"),
    Row("vi", "Vietnamese"),
    Row("vo", "Volapuk"),
    Row("wa", "Walloon")
  ]

  /** Lines 228-234. */
  const Active22: seq<Row> := [
    Row("wo", "Wolof"),
    Row("xh", "Xhosa"),
    Row("yi", "Yiddish"),
    Row("yo", "Yoruba"),
    Row("za", "Zhuang"),
    Row("zh", "Chinese"),
    Row("zu", "Zulu")
  ]

  lemma Active0Ascending()
    ensures Alpha2Ascending(Active0, Alpha2)
  {
    forall i | 0 <= i < |Active0|
      ensures IsAlpha2(Alpha2(Active0[i]))
      ensures i + 1 < |Active0| ==> IsAlpha2(Alpha2(Active0[i + 1])) && PairLess(Alpha2(Active0[i]), Alpha2(Active0[i + 1]))
    {
      if i == 0 { } else if i == 1 { } else if i == 2 { } else if i == 3 { } else if i == 4 { } else if i == 5 { } else if i == 6 { } else { }
    }
  }

  lemma Active1Ascending()
    ensures Alpha2Ascending(Active1, Alpha2)
  {
    forall i | 0 <= i < |Active1|
      ensures IsAlpha2(Alpha2(Active1[i]))
      ensures i + 1 < |Active1| ==> IsAlpha2(Alpha2(Active1[i + 1])) && PairLess(Alpha2(Active1[i]), Alpha2(Active1[i + 1]))
    {
      if i == 0 { } else if i == 1 { } else if i == 2 { } else if i == 3 { } else if i == 4 { } else if i == 5 { } else if i == 6 { } else { }
    }
  }

  lemma Active2Ascending()
    ensures Alpha2Ascending(Active2, Alpha2)
  {
    forall i | 0 <= i < |Active2|
      ensures IsAlpha2(Alpha2(Active2[i]))
      ensures i + 1 < |Active2| ==> IsAlpha2(Alpha2(Active2[i + 1])) && PairLess(Alpha2(Active2[i]), Alpha2(Active2[i + 1]))
    {
      if i == 0 { } else if i == 1 { } else if i == 2 { } else if i == 3 { } else if i == 4 { } else if i == 5 { } else if i == 6 { } else { }
    }
  }

  lemma Active3Ascending()
    ensures Alpha2Ascending(Active3, Alpha2)
  {
    forall i | 0 <= i < |Active3|
      ensures IsAlpha2(Alpha2(Active3[i]))
      ensures i + 1 < |Active3| ==> IsAlpha2(Alpha2(Active3[i + 1])) && PairLess(Alpha2(Active3[i]), Alpha2(Active3[i + 1]))
    {
      if i == 0 { } else if i == 1 { } else if i == 2 { } else if i == 3 { } else if i == 4 { } else if i == 5 { } else if i == 6 { } else { }
    }
  }

  lemma Active4Ascending()
    ensures Alpha2Ascending(Active4, Alpha2)
  {
    forall i | 0 <= i < |Active4|
      ensures IsAlpha2(Alpha2(Active4[i]))
      ensures i + 1 < |Active4| ==> IsAlpha2(Alpha2(Active4[i + 1])) && PairLess(Alpha2(Active4[i]), Alpha2(Active4[i + 1]))
    {
      if i == 0 { } else if i == 1 { } else if i == 2 { } else if i == 3 { } else if i == 4 { } else if i == 5 { } else if i == 6 { } else { }
    }
  }

  lemma Active5Ascending()
    ensures Alpha2Ascending(Active5, Alpha2)
  {
    forall i | 0 <= i < |Active5|
      ensures IsAlpha2(Alpha2(Active5[i]))
      ensures i + 1 < |Active5| ==> IsAlpha2(Alpha2(Active5[i + 1])) && PairLess(Alpha2(Active5[i]), Alpha2(Active5[i + 1]))
    {
      if i == 0 { } else if i == 1 { } else if i == 2 { } else if i == 3 { } else if i == 4 { } else if i == 5 { } else if i == 6 { } else { }
    }
  }

  lemma Active6Ascending()
    ensures Alpha2Ascending(Active6, Alpha2)
  {
    forall i | 0 <= i < |Active6|
      ensures IsAlpha2(Alpha2(Active6[i]))
      ensures i + 1 < |Active6| ==> IsAlpha2(Alpha2(Active6[i + 1])) && PairLess(Alpha2(Active6[i]), Alpha2(Active6[i + 1]))
    {
      if i == 0 { } else if i == 1 { } else if i == 2 { } else if i == 3 { } else if i == 4 { } else if i == 5 { } else if i == 6 { } else { }
    }
  }

  lemma Active7Ascending()
    ensures Alpha2Ascending(Active7, Alpha2)
  {
    forall i | 0 <= i < |Active7|
      ensures IsAlpha2(Alpha2(Active7[i]))
      ensures i + 1 < |Active7| ==> IsAlpha2(Alpha2(Active7[i + 1])) && PairLess(Alpha2(Active7[i]), Alpha2(Active7[i + 1]))
    {
      if i == 0 { } else if i == 1 { } else if i == 2 { } else if i == 3 { } else if i == 4 { } else if i == 5 { } else if i == 6 { } else { }
    }
  }

  lemma Active8Ascending()
    ensures Alpha2Ascending(Active8, Alpha2)
  {
    forall i | 0 <= i < |Active8|
      ensures IsAlpha2(Alpha2(Active8[i]))
      ensures i + 1 < |Active8| ==> IsAlpha2(Alpha2(Active8[i + 1])) && PairLess(Alpha2(Active8[i]), Alpha2(Active8[i + 1]))
    {
      if i == 0 { } else if i == 1 { } else if i == 2 { } else if i == 3 { } else if i == 4 { } else if i == 5 { } else if i == 6 { } else { }
    }
  }

  lemma Active9Ascending()
    ensures Alpha2Ascending(Active9, Alpha2)
  {
    forall i | 0 <= i < |Active9|
      ensures IsAlpha2(Alpha2(Active9[i]))
      ensures i + 1 < |Active9| ==> IsAlpha2(Alpha2(Active9[i + 1])) && PairLess(Alpha2(Active9[i]), Alpha2(Active9[i + 1]))
    {
      if i == 0 { } else if i == 1 { } else if i == 2 { } else if i == 3 { } else if i == 4 { } else if i == 5 { } else if i == 6 { } else { }
    }
  }

  lemma Active10Ascending()
    ensures Alpha2Ascending(Active10, Alpha2)
  {
    forall i | 0 <= i < |Active10|
      ensures IsAlpha2(Alpha2(Active10[i]))
      ensures i + 1 < |Active10| ==> IsAlpha2(Alpha2(Active10[i + 1])) && PairLess(Alpha2(Active10[i]), Alpha2(Active10[i + 1]))
    {
      if i == 0 { } else if i == 1 { } else if i == 2 { } else if i == 3 { } else if i == 4 { } else if i == 5 { } else if i == 6 { } else { }
    }
  }

  lemma Active11Ascending()
    ensures Alpha2Ascending(Active11, Alpha2)
  {
    forall i | 0 <= i < |Active11|
      ensures IsAlpha2(Alpha2(Active11[i]))
      ensures i + 1 < |Active11| ==> IsAlpha2(Alpha2(Active11[i + 1])) && PairLess(Alpha2(Active11[i]), Alpha2(Active11[i + 1]))
    {
      if i == 0 { } else if i == 1 { } else if i == 2 { } else if i == 3 { } else if i == 4 { } else if i == 5 { } else if i == 6 { } else { }
    }
  }

  lemma Active12Ascending()
    ensures Alpha2Ascending(Active12, Alpha2)
  {
    forall i | 0 <= i < |Active12|
      ensures IsAlpha2(Alpha2(Active12[i]))
      ensures i + 1 < |Active12| ==> IsAlpha2(Alpha2(Active12[i + 1])) && PairLess(Alpha2(Active12[i]), Alpha2(Active12[i + 1]))
    {
      if i == 0 { } else if i == 1 { } else if i == 2 { } else if i == 3 { } else if i == 4 { } else if i == 5 { } else if i == 6 { } else { }
    }
  }

  lemma Active13Ascending()
    ensures Alpha2Ascending(Active13, Alpha2)
  {
    forall i | 0 <= i < |Active13|
      ensures IsAlpha2(Alpha2(Active13[i]))
      ensures i + 1 < |Active13| ==> IsAlpha2(Alpha2(Active13[i + 1])) && PairLess(Alpha2(Active13[i]), Alpha2(Active13[i + 1]))
    {
      if i == 0 { } else if i == 1 { } else if i == 2 { } else if i == 3 { } else if i == 4 { } else if i == 5 { } else if i == 6 { } else { }
    }
  }

  lemma Active14Ascending()
    ensures Alpha2Ascending(Active14, Alpha2)
  {
    forall i | 0 <= i < |Active14|
      ensures IsAlpha2(Alpha2(Active14[i]))
      ensures i + 1 < |Active14| ==> IsAlpha2(Alpha2(Active14[i + 1])) && PairLess(Alpha2(Active14[i]), Alpha2(Active14[i + 1]))
    {
      if i == 0 { } else if i == 1 { } else if i == 2 { } else if i == 3 { } else if i == 4 { } else if i == 5 { } else if i == 6 { } else { }
    }
  }

  lemma Active15Ascending()
    ensures Alpha2Ascending(Active15, Alpha2)
  {
    forall i | 0 <= i < |Active15|
      ensures IsAlpha2(Alpha2(Active15[i]))
      ensures i + 1 < |Active15| ==> IsAlpha2(Alpha2(Active15[i + 1])) && PairLess(Alpha2(Active15[i]), Alpha2(Active15[i + 1]))
    {
      if i == 0 { } else if i == 1 { } else if i == 2 { } else if i == 3 { } else if i == 4 { } else if i == 5 { } else if i == 6 { } else { }
    }
  }

  lemma Active16Ascending()
    ensures Alpha2Ascending(Active16, Alpha2)
  {
    forall i | 0 <= i < |Active16|
      ensures IsAlpha2(Alpha2(Active16[i]))
      ensures i + 1 < |Active16| ==> IsAlpha2(Alpha2(Active16[i + 1])) && PairLess(Alpha2(Active16[i]), Alpha2(Active16[i + 1]))
    {
      if i == 0 { } else if i == 1 { } else if i == 2 { } else if i == 3 { } else if i == 4 { } else if i == 5 { } else if i == 6 { } else { }
    }
  }

  lemma Active17Ascending()
    ensures Alpha2Ascending(Active17, Alpha2)
  {
    forall i | 0 <= i < |Active17|
      ensures IsAlpha2(Alpha2(Active17[i]))
      ensures i + 1 < |Active17| ==> IsAlpha2(Alpha2(Active17[i + 1])) && PairLess(Alpha2(Active17[i]), Alpha2(Active17[i + 1]))
    {
      if i == 0 { } else if i == 1 { } else if i == 2 { } else if i == 3 { } else if i == 4 { } else if i == 5 { } else if i == 6 { } else { }
    }
  }

  lemma Active18Ascending()
    ensures Alpha2Ascending(Active18, Alpha2)
  {
    forall i | 0 <= i < |Active18|
      ensures IsAlpha2(Alpha2(Active18[i]))
      ensures i + 1 < |Active18| ==> IsAlpha2(Alpha2(Active18[i + 1])) && PairLess(Alpha2(Active18[i]), Alpha2(Active18[i + 1]))
    {
      if i == 0 { } else if i == 1 { } else if i == 2 { } else if i == 3 { } else if i == 4 { } else if i == 5 { } else if i == 6 { } else { }
    }
  }

  lemma Active19Ascending()
    ensures Alpha2Ascending(Active19, Alpha2)
  {
    forall i | 0 <= i < |Active19|
      ensures IsAlpha2(Alpha2(Active19[i]))
      ensures i + 1 < |Active19| ==> IsAlpha2(Alpha2(Active19[i + 1])) && PairLess(Alpha2(Active19[i]), Alpha2(Active19[i + 1]))
    {
      if i == 0 { } else if i == 1 { } else if i == 2 { } else if i == 3 { } else if i == 4 { } else if i == 5 { } else if i == 6 { } else { }
    }
  }

  lemma Active20Ascending()
    ensures Alpha2Ascending(Active20, Alpha2)
  {
    forall i | 0 <= i < |Active20|
      ensures IsAlpha2(Alpha2(Active20[i]))
      ensures i + 1 < |Active20| ==> IsAlpha2(Alpha2(Active20[i + 1])) && PairLess(Alpha2(Active20[i]), Alpha2(Active20[i + 1]))
    {
      if i == 0 { } else if i == 1 { } else if i == 2 { } else if i == 3 { } else if i == 4 { } else if i == 5 { } else if i == 6 { } else { }
    }
  }

  lemma Active21Ascending()
    ensures Alpha2Ascending(Active21, Alpha2)
  {
    forall i | 0 <= i < |Active21|
      ensures IsAlpha2(Alpha2(Active21[i]))
      ensures i + 1 < |Active21| ==> IsAlpha2(Alpha2(Active21[i + 1])) && PairLess(Alpha2(Active21[i]), Alpha2(Active21[i + 1]))
    {
      if i == 0 { } else if i == 1 { } else if i == 2 { } else if i == 3 { } else if i == 4 { } else if i == 5 { } else if i == 6 { } else { }
    }
  }

  lemma Active22Ascending()
    ensures Alpha2Ascending(Active22, Alpha2)
  {
    forall i | 0 <= i < |Active22|
      ensures IsAlpha2(Alpha2(Active22[i]))
      ensures i + 1 < |Active22| ==> IsAlpha2(Alpha2(Active22[i + 1])) && PairLess(Alpha2(Active22[i]), Alpha2(Active22[i + 1]))
    {
      if i == 0 { } else if i == 1 { } else if i == 2 { } else if i == 3 { } else if i == 4 { } else if i == 5 { } else { }
    }
  }

  /** The active codes of lines 52-234, in table order. */
  const ActiveGroup0: seq<Row> := Active0 + (Active1 + (Active2 + (Active3 + (Active4 + Active5))))
  const ActiveGroup1: seq<Row> := Active6 + (Active7 + (Active8 + (Active9 + (Active10 + Active11))))
  const ActiveGroup2: seq<Row> := Active12 + (Active13 + (Active14 + (Active15 + (Active16 + Active17))))
  const ActiveGroup3: seq<Row> := Active18 + (Active19 + (Active20 + (Active21 + Active22)))

  const ActiveRows: seq<Row> := ActiveGroup0 + (ActiveGroup1 + (ActiveGroup2 + ActiveGroup3))

  /** The Kodi addition of line 242. */
  const KodiRows: seq<Row> := [Row("pb", "Portuguese (Brazil)")]

  /** `ISO639_1_COUNT`. */
  const Iso639_1Count := 184

  /** The rows of `TableISO639_1`. */
  const Iso639_1Rows: seq<Row> := ActiveRows + KodiRows

  /** `ISO639_1_DEPRECATED_COUNT`. */
  const Iso639_1DeprecatedCount := 7

  /** The rows of `TableISO639_1_Depr`, lines 253-273, in order of deprecation. */
  const DeprecatedRows: seq<Row> := [
    Row("ji", "Yiddish"),
    Row("in", "Indonesian"),
    Row("iw", "Hebrew"),
    Row("sh", "Serbo-Croatian"),
    Row("jw", "Javanese"),
    Row("mo", "Moldavian"),
    Row("bh", "Bihari")
  ]

  predicate AllAlpha2(rows: seq<Row>) { forall i :: 0 <= i < |rows| ==> IsAlpha2(rows[i].alpha2) }

  lemma ActiveGroup0Ascending()
    ensures Alpha2Ascending(ActiveGroup0, Alpha2)
  {
    Active5Ascending();
    Active4Ascending();
    Alpha2AscendingAppend(Active4, Active5, Alpha2);
    Active3Ascending();
    assert (Active4 + Active5)[0] == Active4[0];
    Alpha2AscendingAppend(Active3, Active4 + Active5, Alpha2);
    Active2Ascending();
    assert (Active3 + (Active4 + Active5))[0] == Active3[0];
    Alpha2AscendingAppend(Active2, Active3 + (Active4 + Active5), Alpha2);
    Active1Ascending();
    assert (Active2 + (Active3 + (Active4 + Active5)))[0] == Active2[0];
    Alpha2AscendingAppend(Active1, Active2 + (Active3 + (Active4 + Active5)), Alpha2);
    Active0Ascending();
    assert (Active1 + (Active2 + (Active3 + (Active4 + Active5))))[0] == Active1[0];
    Alpha2AscendingAppend(Active0, Active1 + (Active2 + (Active3 + (Active4 + Active5))), Alpha2);
  }

  lemma ActiveGroup1Ascending()
    ensures Alpha2Ascending(ActiveGroup1, Alpha2)
  {
    Active11Ascending();
    Active10Ascending();
    Alpha2AscendingAppend(Active10, Active11, Alpha2);
    Active9Ascending();
    assert (Active10 + Active11)[0] == Active10[0];
    Alpha2AscendingAppend(Active9, Active10 + Active11, Alpha2);
    Active8Ascending();
    assert (Active9 + (Active10 + Active11))[0] == Active9[0];
    Alpha2AscendingAppend(Active8, Active9 + (Active10 + Active11), Alpha2);
    Active7Ascending();
    assert (Active8 + (Active9 + (Active10 + Active11)))[0] == Active8[0];
    Alpha2AscendingAppend(Active7, Active8 + (Active9 + (Active10 + Active11)), Alpha2);
    Active6Ascending();
    assert (Active7 + (Active8 + (Active9 + (Active10 + Active11))))[0] == Active7[0];
    Alpha2AscendingAppend(Active6, Active7 + (Active8 + (Active9 + (Active10 + Active11))), Alpha2);
  }

  lemma ActiveGroup2Ascending()
    ensures Alpha2Ascending(ActiveGroup2, Alpha2)
  {
    Active17Ascending();
    Active16Ascending();
    Alpha2AscendingAppend(Active16, Active17, Alpha2);
    Active15Ascending();
    assert (Active16 + Active17)[0] == Active16[0];
    Alpha2AscendingAppend(Active15, Active16 + Active17, Alpha2);
    Active14Ascending();
    assert (Active15 + (Active16 + Active17))[0] == Active15[0];
    Alpha2AscendingAppend(Active14, Active15 + (Active16 + Active17), Alpha2);
    Active13Ascending();
    assert (Active14 + (Active15 + (Active16 + Active17)))[0] == Active14[0];
    Alpha2AscendingAppend(Active13, Active14 + (Active15 + (Active16 + Active17)), Alpha2);
    Active12Ascending();
    assert (Active13 + (Active14 + (Active15 + (Active16 + Active17))))[0] == Active13[0];
    Alpha2AscendingAppend(Active12, Active13 + (Active14 + (Active15 + (Active16 + Active17))), Alpha2);
  }

  lemma ActiveGroup3Ascending()
    ensures Alpha2Ascending(ActiveGroup3, Alpha2)
  {
    Active22Ascending();
    Active21Ascending();
    Alpha2AscendingAppend(Active21, Active22, Alpha2);
    Active20Ascending();
    assert (Active21 + Active22)[0] == Active21[0];
    Alpha2AscendingAppend(Active20, Active21 + Active22, Alpha2);
    Active19Ascending();
    assert (Active20 + (Active21 + Active22))[0] == Active20[0];
    Alpha2AscendingAppend(Active19, Active20 + (Active21 + Active22), Alpha2);
    Active18Ascending();
    assert (Active19 + (Active20 + (Active21 + Active22)))[0] == Active19[0];
    Alpha2AscendingAppend(Active18, Active19 + (Active20 + (Active21 + Active22)), Alpha2);
  }

  /** The active codes are two lower-case letters each, in strictly ascending order. */
  lemma ActiveAscending()
    ensures Ascending(ActiveRows, Alpha2)
    ensures AllAlpha2(ActiveRows)
  {
    ActiveGroup3Ascending();
    ActiveGroup2Ascending();
    assert ActiveGroup2[|ActiveGroup2| - 1] == Active17[|Active17| - 1];
    assert ActiveGroup3[0] == Active18[0];
    Alpha2AscendingAppend(ActiveGroup2, ActiveGroup3, Alpha2);
    ActiveGroup1Ascending();
    assert ActiveGroup1[|ActiveGroup1| - 1] == Active11[|Active11| - 1];
    assert (ActiveGroup2 + ActiveGroup3)[0] == Active12[0];
    Alpha2AscendingAppend(ActiveGroup1, ActiveGroup2 + ActiveGroup3, Alpha2);
    ActiveGroup0Ascending();
    assert ActiveGroup0[|ActiveGroup0| - 1] == Active5[|Active5| - 1];
    assert (ActiveGroup1 + (ActiveGroup2 + ActiveGroup3))[0] == Active6[0];
    Alpha2AscendingAppend(ActiveGroup0, ActiveGroup1 + (ActiveGroup2 + ActiveGroup3), Alpha2);
    Alpha2AscendingIsAscending(ActiveRows, Alpha2);
  }

  /** A code that is not among the active ones, with the active neighbours it falls between. */
  lemma NotIn(rows: seq<Row>, x: string, k: nat)
    requires Ascending(rows, Alpha2) && AllAlpha2(rows)
    requires IsAlpha2(x) && k + 1 < |rows|
    requires PairLess(rows[k].alpha2, x) && PairLess(x, rows[k + 1].alpha2)
    ensures forall i :: 0 <= i < |rows| ==> rows[i].alpha2 != x
  {
    LexOfPairs(rows[k].alpha2, x);
    LexOfPairs(x, rows[k + 1].alpha2);
    AbsentInGap(rows, Alpha2, x);
  }

  /** The Kodi code "pb" is not an ISO code: it lies between "pa" and "pi". */
  lemma KodiCodeNotActive()
    ensures forall i :: 0 <= i < |ActiveRows| ==> ActiveRows[i].alpha2 != "pb"
  {
    assert ActiveRows[125] == ActiveGroup2[29] == Active15[5] && ActiveRows[126] == ActiveGroup2[30] == Active15[6];
    ActiveAscending();
    NotIn(ActiveRows, "pb", 125);
  }

  /** "ji" lies between "ja" and "jv". */
  lemma JiNotActive()
    ensures forall i :: 0 <= i < |ActiveRows| ==> ActiveRows[i].alpha2 != "ji"
  {
    assert ActiveRows[73] == ActiveGroup1[25] == Active9[1] && ActiveRows[74] == ActiveGroup1[26] == Active9[2];
    ActiveAscending();
    NotIn(ActiveRows, "ji", 73);
  }

  /** "in" lies between "ik" and "io". */
  lemma InNotActive()
    ensures forall i :: 0 <= i < |ActiveRows| ==> ActiveRows[i].alpha2 != "in"
  {
    assert ActiveRows[68] == ActiveGroup1[20] == Active8[4] && ActiveRows[69] == ActiveGroup1[21] == Active8[5];
    ActiveAscending();
    NotIn(ActiveRows, "in", 68);
  }

  /** "iw" lies between "iu" and "ja". */
  lemma IwNotActive()
    ensures forall i :: 0 <= i < |ActiveRows| ==> ActiveRows[i].alpha2 != "iw"
  {
    assert ActiveRows[72] == ActiveGroup1[24] == Active9[0] && ActiveRows[73] == ActiveGroup1[25] == Active9[1];
    ActiveAscending();
    NotIn(ActiveRows, "iw", 72);
  }

  /** "sh" lies between "sg" and "si". */
  lemma ShNotActive()
    ensures forall i :: 0 <= i < |ActiveRows| ==> ActiveRows[i].alpha2 != "sh"
  {
    assert ActiveRows[140] == ActiveGroup2[44] == Active17[4] && ActiveRows[141] == ActiveGroup2[45] == Active17[5];
    ActiveAscending();
    NotIn(ActiveRows, "sh", 140);
  }

  /** "jw" lies between "jv" and "ka". */
  lemma JwNotActive()
    ensures forall i :: 0 <= i < |ActiveRows| ==> ActiveRows[i].alpha2 != "jw"
  {
    assert ActiveRows[74] == ActiveGroup1[26] == Active9[2] && ActiveRows[75] == ActiveGroup1[27] == Active9[3];
    ActiveAscending();
    NotIn(ActiveRows, "jw", 74);
  }

  /** "mo" lies between "mn" and "mr". */
  lemma MoNotActive()
    ensures forall i :: 0 <= i < |ActiveRows| ==> ActiveRows[i].alpha2 != "mo"
  {
    assert ActiveRows[104] == ActiveGroup2[8] == Active13[0] && ActiveRows[105] == ActiveGroup2[9] == Active13[1];
    ActiveAscending();
    NotIn(ActiveRows, "mo", 104);
  }

  /** "bh" lies between "bg" and "bi". */
  lemma BhNotActive()
    ensures forall i :: 0 <= i < |ActiveRows| ==> ActiveRows[i].alpha2 != "bh"
  {
    assert ActiveRows[14] == ActiveGroup0[14] == Active1[6] && ActiveRows[15] == ActiveGroup0[15] == Active1[7];
    ActiveAscending();
    NotIn(ActiveRows, "bh", 14);
  }

  /** Each deprecated code is absent from the active codes, and is not the Kodi code. */
  lemma DeprecatedCodeNotActive(j: nat)
    requires j < |DeprecatedRows|
    ensures forall i :: 0 <= i < |Iso639_1Rows| ==> Iso639_1Rows[i].alpha2 != DeprecatedRows[j].alpha2
  {
    if j == 0 { JiNotActive(); } else if j == 1 { InNotActive(); } else if j == 2 { IwNotActive(); } else if j == 3 { ShNotActive(); } else if j == 4 { JwNotActive(); } else if j == 5 { MoNotActive(); } else { BhNotActive(); }
    forall i | 0 <= i < |Iso639_1Rows|
      ensures Iso639_1Rows[i].alpha2 != DeprecatedRows[j].alpha2
    {
      if i >= |ActiveRows| {
        assert Iso639_1Rows[i] == KodiRows[0];
      } else {
        assert Iso639_1Rows[i] == ActiveRows[i];
      }
    }
  }

  /** No deprecated code is among the codes of the active table. */
  lemma DeprecatedNotActive()
    ensures forall i, j :: 0 <= i < |Iso639_1Rows| && 0 <= j < |DeprecatedRows| ==>
      Iso639_1Rows[i].alpha2 != DeprecatedRows[j].alpha2
  {
    forall j | 0 <= j < |DeprecatedRows|
      ensures forall i :: 0 <= i < |Iso639_1Rows| ==> Iso639_1Rows[i].alpha2 != DeprecatedRows[j].alpha2
    {
      DeprecatedCodeNotActive(j);
    }
  }

  /** `LCENTRY` of a row: the packed code and the name. */
  function EntryOf(r: Row): Entry
  {
    Entry(StringToLongCode(r.alpha2), r.name)
  }

  function Entries(rows: seq<Row>): (r: seq<Entry>)
    ensures |r| == |rows|
    ensures forall i :: 0 <= i < |rows| ==> r[i] == EntryOf(rows[i])
  {
    seq(|rows|, i requires 0 <= i < |rows| => EntryOf(rows[i]))
  }

  /** `TableISO639_1`. */
  const TableISO639_1: seq<Entry> := Entries(Iso639_1Rows)

  /** `TableISO639_1_Depr`. */
  const TableISO639_1_Depr: seq<Entry> := Entries(DeprecatedRows)

  /** `TableISO639_1ByCode`: `CreateIso6391ByCode` sorts like `CreateIso639ByCode`. */
  const TableISO639_1ByCode: seq<Entry> := CreateIso639ByCode(TableISO639_1)

  const TableISO639_1_DeprByCode: seq<Entry> := CreateIso639ByCode(TableISO639_1_Depr)

  /** `TableISO639_1ByName`: `CreateIso6391ByName` sorts like `CreateIso639ByName`. */
  const TableISO639_1ByName: seq<Entry> := CreateIso639ByName(TableISO639_1)

  const TableISO639_1_DeprByName: seq<Entry> := CreateIso639ByName(TableISO639_1_Depr)

  /** The deprecated codes are two lower-case letters each, all different. */
  lemma DeprecatedShape()
    ensures AllAlpha2(DeprecatedRows)
    ensures forall i, j :: 0 <= i < j < |DeprecatedRows| ==> DeprecatedRows[i].alpha2 != DeprecatedRows[j].alpha2
  {
    forall i | 0 <= i < |DeprecatedRows|
      ensures IsAlpha2(DeprecatedRows[i].alpha2)
    {
      if i == 0 { } else if i == 1 { } else if i == 2 { } else if i == 3 { } else if i == 4 { } else if i == 5 { } else { }
    }
  }

  /** Two lower-case letters are an ASCII code that packs and unpacks. */
  lemma Alpha2IsCodeText(s: string)
    requires IsAlpha2(s)
    ensures IsCodeText(s)
    ensures LongCodeToString(StringToLongCode(s)) == s
  {
    assert IsLower(s[0]) && IsLower(s[1]);
    LongCodeRoundTrip(s);
  }

  /**
   * The tables have the declared sizes, and every code is the packing of two
   * lower-case letters, which unpacks to the same letters.
   */
  lemma TableShape()
    ensures |TableISO639_1| == Iso639_1Count && |TableISO639_1_Depr| == Iso639_1DeprecatedCount
    ensures forall i :: 0 <= i < |TableISO639_1| ==>
      IsAlpha2(Iso639_1Rows[i].alpha2) && LongCodeToString(TableISO639_1[i].code) == Iso639_1Rows[i].alpha2
    ensures forall i :: 0 <= i < |TableISO639_1_Depr| ==>
      IsAlpha2(DeprecatedRows[i].alpha2) && LongCodeToString(TableISO639_1_Depr[i].code) == DeprecatedRows[i].alpha2
  {
    ActiveAscending();
    DeprecatedShape();
    forall i | 0 <= i < |TableISO639_1|
      ensures IsAlpha2(Iso639_1Rows[i].alpha2) && LongCodeToString(TableISO639_1[i].code) == Iso639_1Rows[i].alpha2
    {
      if i < |ActiveRows| {
        assert Iso639_1Rows[i] == ActiveRows[i];
      } else {
        assert Iso639_1Rows[i] == Row("pb", "Portuguese (Brazil)");
        assert IsAlpha2("pb");
      }
      Alpha2IsCodeText(Iso639_1Rows[i].alpha2);
    }
    forall i | 0 <= i < |TableISO639_1_Depr|
      ensures IsAlpha2(DeprecatedRows[i].alpha2) && LongCodeToString(TableISO639_1_Depr[i].code) == DeprecatedRows[i].alpha2
    {
      Alpha2IsCodeText(DeprecatedRows[i].alpha2);
    }
  }

  /** Distinct alpha-2 codes of two letters pack to distinct codes. */
  lemma DistinctCodes(rows: seq<Row>)
    requires AllAlpha2(rows)
    requires forall i, j :: 0 <= i < j < |rows| ==> rows[i].alpha2 != rows[j].alpha2
    ensures forall i, j :: 0 <= i < j < |Entries(rows)| ==> Entries(rows)[i].code != Entries(rows)[j].code
  {
    forall i, j | 0 <= i < j < |rows|
      ensures EntryOf(rows[i]).code != EntryOf(rows[j]).code
    {
      Alpha2IsCodeText(rows[i].alpha2);
      Alpha2IsCodeText(rows[j].alpha2);
    }
  }

  /** No two rows of the active table share a code. */
  lemma ActiveCodesDistinct()
    ensures forall i, j :: 0 <= i < j < |Iso639_1Rows| ==> Iso639_1Rows[i].alpha2 != Iso639_1Rows[j].alpha2
    ensures AllAlpha2(Iso639_1Rows)
  {
    ActiveAscending();
    AscendingDistinct(ActiveRows, Alpha2);
    KodiCodeNotActive();
    assert IsAlpha2("pb");
    forall i, j | 0 <= i < j < |Iso639_1Rows|
      ensures Iso639_1Rows[i].alpha2 != Iso639_1Rows[j].alpha2
    {
      if j < |ActiveRows| {
        assert Iso639_1Rows[i] == ActiveRows[i] && Iso639_1Rows[j] == ActiveRows[j];
      } else {
        assert Iso639_1Rows[i] == ActiveRows[i] && Iso639_1Rows[j] == KodiRows[0];
      }
    }
  }

  /**
   * The arrays sorted by code are sorted permutations of their tables, and,
   * since no two rows share a code, they are the only ones: the unstable
   * sort has a single outcome. The arrays sorted by name are sorted
   * permutations too.
   */
  lemma ByCodeDetermined(r: seq<Entry>, d: seq<Entry>)
    ensures IsSortingOf(TableISO639_1ByCode, TableISO639_1, CodeLe)
    ensures IsSortingOf(TableISO639_1_DeprByCode, TableISO639_1_Depr, CodeLe)
    ensures IsSortingOf(TableISO639_1ByName, TableISO639_1, NameLe)
    ensures IsSortingOf(TableISO639_1_DeprByName, TableISO639_1_Depr, NameLe)
    ensures IsSortingOf(r, TableISO639_1, CodeLe) ==> r == TableISO639_1ByCode
    ensures IsSortingOf(d, TableISO639_1_Depr, CodeLe) ==> d == TableISO639_1_DeprByCode
  {
    ActiveCodesDistinct();
    DistinctCodes(Iso639_1Rows);
    DeprecatedShape();
    DistinctCodes(DeprecatedRows);
    if IsSortingOf(r, TableISO639_1, CodeLe) {
      ByCodeUnique(TableISO639_1, r);
    }
    if IsSortingOf(d, TableISO639_1_Depr, CodeLe) {
      ByCodeUnique(TableISO639_1_Depr, d);
    }
  }
}
