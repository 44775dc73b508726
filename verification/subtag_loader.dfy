/**
 * Loading subtag records of the IANA Language Subtag Registry (section 3.1
 * of RFC 5646) into the typed subtag values of the registry.
 *
 * Each loader of the source writes into a target passed by reference and
 * returns whether it succeeded. Here a loader takes the target's current
 * value and returns the success flag with the target's new value; a failed
 * load hands the target back untouched.
 */
module SubTagLoader {

  /** The decoded `Scope` field of a record. */
  datatype Scope = Individual | MacroLanguage | Collection | Special | PrivateUse | Unknown

  /**
   * A registry record with its fields already decoded: one value per
   * single-valued field (empty when absent), every occurrence of a
   * repeatable field in order.
   */
  datatype RegistryRecord = RegistryRecord(
    subTag: string,
    description: seq<string>,
    added: string,
    deprecated: string,
    preferredValue: string,
    prefix: seq<string>,
    suppressScript: string,
    macroLanguage: string,
    scope: Scope)

  /** The fields shared by every kind of subtag. */
  datatype BaseSubTag = BaseSubTag(
    subTag: string,
    description: seq<string>,
    added: string,
    deprecated: string,
    preferredValue: string)

  datatype LanguageSubTag = LanguageSubTag(
    base: BaseSubTag,
    suppressScript: string,
    macroLanguage: string,
    scope: Scope)

  datatype ExtLangSubTag = ExtLangSubTag(
    base: BaseSubTag,
    prefix: string,
    suppressScript: string,
    macroLanguage: string,
    scope: Scope)

  datatype VariantSubTag = VariantSubTag(
    base: BaseSubTag,
    prefix: seq<string>)

  /** `LoadBaseSubTag`: refuses a record without a subtag, otherwise copies the common fields. */
  function LoadBaseSubTag(target: BaseSubTag, record: RegistryRecord): (r: (bool, BaseSubTag))
    ensures r.0 <==> record.subTag != ""
    ensures !r.0 ==> r.1 == target
    ensures r.0 ==> BaseRecord(r.1, record)
  {
    if record.subTag == "" then (false, target)
    else (true, BaseSubTag(record.subTag, record.description, record.added, record.deprecated, record.preferredValue))
  }

  /** The common fields of `sub` are those of `record`. */
  predicate BaseRecord(sub: BaseSubTag, record: RegistryRecord)
  {
    && sub.subTag == record.subTag
    && sub.description == record.description
    && sub.added == record.added
    && sub.deprecated == record.deprecated
    && sub.preferredValue == record.preferredValue
  }

  /** `LoadLanguageSubTag`: the base load, then suppress-script, macrolanguage and scope. */
  function LoadLanguageSubTag(target: LanguageSubTag, record: RegistryRecord): (r: (bool, LanguageSubTag))
    ensures r.0 <==> record.subTag != ""
    ensures !r.0 ==> r.1 == target
    ensures r.0 ==> && BaseRecord(r.1.base, record)
                    && r.1.suppressScript == record.suppressScript
                    && r.1.macroLanguage == record.macroLanguage
                    && r.1.scope == record.scope
  {
    var (ok, base) := LoadBaseSubTag(target.base, record);
    if !ok then (false, target)
    else (true, LanguageSubTag(base, record.suppressScript, record.macroLanguage, record.scope))
  }

  /**
   * `LoadExtLangSubTag`: refuses a record with other than exactly one prefix
   * before touching the target, then loads like a language subtag with the
   * single prefix.
   */
  function LoadExtLangSubTag(target: ExtLangSubTag, record: RegistryRecord): (r: (bool, ExtLangSubTag))
    ensures r.0 <==> |record.prefix| == 1 && record.subTag != ""
    ensures !r.0 ==> r.1 == target
    ensures r.0 ==> && BaseRecord(r.1.base, record)
                    && [r.1.prefix] == record.prefix
                    && r.1.suppressScript == record.suppressScript
                    && r.1.macroLanguage == record.macroLanguage
                    && r.1.scope == record.scope
  {
    if |record.prefix| != 1 then (false, target)
    else
      var (ok, base) := LoadBaseSubTag(target.base, record);
      if !ok then (false, target)
      else (true, ExtLangSubTag(base, record.prefix[0], record.suppressScript, record.macroLanguage, record.scope))
  }

  /** `LoadVariantSubTag`: the base load, then every prefix in order (none is fine). */
  function LoadVariantSubTag(target: VariantSubTag, record: RegistryRecord): (r: (bool, VariantSubTag))
    ensures r.0 <==> record.subTag != ""
    ensures !r.0 ==> r.1 == target
    ensures r.0 ==> BaseRecord(r.1.base, record) && r.1.prefix == record.prefix
  {
    var (ok, base) := LoadBaseSubTag(target.base, record);
    if !ok then (false, target)
    else (true, VariantSubTag(base, record.prefix))
  }

  // Records written from subtag values: the inverse direction.

  function RecordOfBase(sub: BaseSubTag): RegistryRecord
  {
    RegistryRecord(sub.subTag, sub.description, sub.added, sub.deprecated, sub.preferredValue, [], "", "", Individual)
  }

  function RecordOfLanguage(sub: LanguageSubTag): RegistryRecord
  {
    RecordOfBase(sub.base).(suppressScript := sub.suppressScript, macroLanguage := sub.macroLanguage, scope := sub.scope)
  }

  function RecordOfExtLang(sub: ExtLangSubTag): RegistryRecord
  {
    RecordOfBase(sub.base).(prefix := [sub.prefix], suppressScript := sub.suppressScript,
                            macroLanguage := sub.macroLanguage, scope := sub.scope)
  }

  function RecordOfVariant(sub: VariantSubTag): RegistryRecord
  {
    RecordOfBase(sub.base).(prefix := sub.prefix)
  }

  /** Every subtag with a name is loaded back from its own record, whatever the target held. */
  lemma LoadRoundTrip(b: BaseSubTag, l: LanguageSubTag, e: ExtLangSubTag, v: VariantSubTag,
                      tb: BaseSubTag, tl: LanguageSubTag, te: ExtLangSubTag, tv: VariantSubTag)
    ensures b.subTag != "" ==> LoadBaseSubTag(tb, RecordOfBase(b)) == (true, b)
    ensures l.base.subTag != "" ==> LoadLanguageSubTag(tl, RecordOfLanguage(l)) == (true, l)
    ensures e.base.subTag != "" ==> LoadExtLangSubTag(te, RecordOfExtLang(e)) == (true, e)
    ensures v.base.subTag != "" ==> LoadVariantSubTag(tv, RecordOfVariant(v)) == (true, v)
  {
  }

  /**
   * The derived loaders agree with the base loader on success and on the
   * common fields, and a successful load does not depend on the target.
   */
  lemma LoadersShareBase(record: RegistryRecord, tl: LanguageSubTag, te: ExtLangSubTag, tv: VariantSubTag, tl': LanguageSubTag)
    ensures LoadLanguageSubTag(tl, record).0 == LoadBaseSubTag(tl.base, record).0
    ensures LoadLanguageSubTag(tl, record).0 ==> LoadLanguageSubTag(tl, record).1.base == LoadBaseSubTag(tl.base, record).1
    ensures LoadVariantSubTag(tv, record).0 ==> LoadVariantSubTag(tv, record).1.base == LoadBaseSubTag(tv.base, record).1
    ensures LoadExtLangSubTag(te, record).0 ==> LoadExtLangSubTag(te, record).1.base == LoadBaseSubTag(te.base, record).1
    ensures LoadLanguageSubTag(tl, record).0 ==> LoadLanguageSubTag(tl', record) == LoadLanguageSubTag(tl, record)
  {
  }

  /** Loading the same record twice leaves what the first load left. */
  lemma LoadIdempotent(record: RegistryRecord, tl: LanguageSubTag, te: ExtLangSubTag, tv: VariantSubTag)
    ensures LoadLanguageSubTag(LoadLanguageSubTag(tl, record).1, record).1 == LoadLanguageSubTag(tl, record).1
    ensures LoadExtLangSubTag(LoadExtLangSubTag(te, record).1, record).1 == LoadExtLangSubTag(te, record).1
    ensures LoadVariantSubTag(LoadVariantSubTag(tv, record).1, record).1 == LoadVariantSubTag(tv, record).1
  {
  }

  /** A record without prefixes or with two is not an extended language subtag, even with a name. */
  lemma ExtLangPrefixCount(record: RegistryRecord, te: ExtLangSubTag)
    requires record.subTag != ""
    ensures LoadExtLangSubTag(te, record.(prefix := [])) == (false, te)
    ensures LoadExtLangSubTag(te, record.(prefix := ["pref1", "pref2"])) == (false, te)
    ensures LoadVariantSubTag(VariantSubTag(te.base, []), record.(prefix := ["pref1", "pref2"])).1.prefix == ["pref1", "pref2"]
  {
  }
}
