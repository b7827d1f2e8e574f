/**
 * `Configuration`: the scanner's settings document as a mutable record.
 * Every field has a getter with no side effect and a setter that stores
 * its argument as given; the severity strings in particular are stored
 * without validation (the builder validates, this record does not).
 *
 * `Settings` is the same record as a value: what `Snapshot()` reads off a
 * `Configuration`, what the settings file holds once parsed, and what a
 * save writes back.
 */
module Configurations {
  import opened Common
  import opened HostMappings

  datatype Settings = Settings(
    applyDebugHeader: bool,
    excludedUrls: Option<seq<string>>,
    excludedAttackUrls: Option<seq<string>>,
    excludedFileExtensions: Option<seq<string>>,
    excludedParameters: Option<seq<string>>,
    attackModules: Option<seq<string>>,
    disablePassiveModules: bool,
    allowedHosts: Option<seq<string>>,
    includeEvidence: bool,
    filterOnSeverity: Option<string>,
    failOnSeverity: Option<string>,
    hosts: Option<seq<HostMapping>>)

  class Configuration {
    var applyDebugHeader: bool
    var excludedUrls: Option<seq<string>>
    var excludedAttackUrls: Option<seq<string>>
    var excludedFileExtensions: Option<seq<string>>
    var excludedParameters: Option<seq<string>>
    var attackModules: Option<seq<string>>
    var disablePassiveModules: bool
    var allowedHosts: Option<seq<string>>
    var includeEvidence: bool
    var filterOnSeverity: Option<string>
    var failOnSeverity: Option<string>
    var hosts: Option<seq<HostMapping>>

    /** The whole record as a value. */
    function Snapshot(): Settings
      reads this
    {
      Settings(applyDebugHeader, excludedUrls, excludedAttackUrls, excludedFileExtensions,
               excludedParameters, attackModules, disablePassiveModules, allowedHosts,
               includeEvidence, filterOnSeverity, failOnSeverity, hosts)
    }

    /** The object a JSON read produces from a parsed document. */
    constructor FromSettings(s: Settings)
      ensures Snapshot() == s
    {
      applyDebugHeader, excludedUrls, excludedAttackUrls := s.applyDebugHeader, s.excludedUrls, s.excludedAttackUrls;
      excludedFileExtensions, excludedParameters := s.excludedFileExtensions, s.excludedParameters;
      attackModules, disablePassiveModules, allowedHosts := s.attackModules, s.disablePassiveModules, s.allowedHosts;
      includeEvidence, filterOnSeverity, failOnSeverity := s.includeEvidence, s.filterOnSeverity, s.failOnSeverity;
      hosts := s.hosts;
    }

    function IsApplyDebugHeader(): bool reads this { applyDebugHeader }
    function GetExcludedUrls(): Option<seq<string>> reads this { excludedUrls }
    function GetExcludedAttackUrls(): Option<seq<string>> reads this { excludedAttackUrls }
    function GetExcludedFileExtensions(): Option<seq<string>> reads this { excludedFileExtensions }
    function GetExcludedParameters(): Option<seq<string>> reads this { excludedParameters }
    function GetAttackModules(): Option<seq<string>> reads this { attackModules }
    function IsDisablePassiveModules(): bool reads this { disablePassiveModules }
    function GetAllowedHosts(): Option<seq<string>> reads this { allowedHosts }
    function IsIncludeEvidence(): bool reads this { includeEvidence }
    function GetFilterOnSeverity(): Option<string> reads this { filterOnSeverity }
    function GetFailOnSeverity(): Option<string> reads this { failOnSeverity }
    function GetHosts(): Option<seq<HostMapping>> reads this { hosts }

    method SetApplyDebugHeader(v: bool)
      modifies this
      ensures IsApplyDebugHeader() == v
      ensures Snapshot() == old(Snapshot()).(applyDebugHeader := v)
    {
      applyDebugHeader := v;
    }

    method SetExcludedUrls(v: Option<seq<string>>)
      modifies this
      ensures GetExcludedUrls() == v
      ensures Snapshot() == old(Snapshot()).(excludedUrls := v)
    {
      excludedUrls := v;
    }

    method SetExcludedAttackUrls(v: Option<seq<string>>)
      modifies this
      ensures GetExcludedAttackUrls() == v
      ensures Snapshot() == old(Snapshot()).(excludedAttackUrls := v)
    {
      excludedAttackUrls := v;
    }

    method SetExcludedFileExtensions(v: Option<seq<string>>)
      modifies this
      ensures GetExcludedFileExtensions() == v
      ensures Snapshot() == old(Snapshot()).(excludedFileExtensions := v)
    {
      excludedFileExtensions := v;
    }

    method SetExcludedParameters(v: Option<seq<string>>)
      modifies this
      ensures GetExcludedParameters() == v
      ensures Snapshot() == old(Snapshot()).(excludedParameters := v)
    {
      excludedParameters := v;
    }

    method SetAttackModules(v: Option<seq<string>>)
      modifies this
      ensures GetAttackModules() == v
      ensures Snapshot() == old(Snapshot()).(attackModules := v)
    {
      attackModules := v;
    }

    method SetDisablePassiveModules(v: bool)
      modifies this
      ensures IsDisablePassiveModules() == v
      ensures Snapshot() == old(Snapshot()).(disablePassiveModules := v)
    {
      disablePassiveModules := v;
    }

    method SetAllowedHosts(v: Option<seq<string>>)
      modifies this
      ensures GetAllowedHosts() == v
      ensures Snapshot() == old(Snapshot()).(allowedHosts := v)
    {
      allowedHosts := v;
    }

    method SetIncludeEvidence(v: bool)
      modifies this
      ensures IsIncludeEvidence() == v
      ensures Snapshot() == old(Snapshot()).(includeEvidence := v)
    {
      includeEvidence := v;
    }

    /** Stores any string, valid severity or not. */
    method SetFilterOnSeverity(v: Option<string>)
      modifies this
      ensures GetFilterOnSeverity() == v
      ensures Snapshot() == old(Snapshot()).(filterOnSeverity := v)
    {
      filterOnSeverity := v;
    }

    /** Stores any string, valid severity or not. */
    method SetFailOnSeverity(v: Option<string>)
      modifies this
      ensures GetFailOnSeverity() == v
      ensures Snapshot() == old(Snapshot()).(failOnSeverity := v)
    {
      failOnSeverity := v;
    }

    method SetHosts(v: Option<seq<HostMapping>>)
      modifies this
      ensures GetHosts() == v
      ensures Snapshot() == old(Snapshot()).(hosts := v)
    {
      hosts := v;
    }
  }

  /**
   * The document after reconciliation: `hosts` replaced wholesale by the
   * reconciled rules, both severity strings overwritten, every other field
   * as it was.
   */
  function ReconcileSettings(s: Settings, rules: seq<HostMappingRule>,
                             filter: Option<string>, fail: Option<string>): Settings
  {
    s.(hosts := Some(Reconciled(rules)), filterOnSeverity := filter, failOnSeverity := fail)
  }

  /**
   * Reconciling does not depend on the previous `hosts` list, and so doing
   * it twice with the same rules and severities is the same as doing it once.
   */
  lemma ReconcileIdempotent(s: Settings, rules: seq<HostMappingRule>,
                            filter: Option<string>, fail: Option<string>)
    ensures ReconcileSettings(ReconcileSettings(s, rules, filter, fail), rules, filter, fail)
         == ReconcileSettings(s, rules, filter, fail)
    ensures forall previous: Option<seq<HostMapping>> ::
              ReconcileSettings(s.(hosts := previous), rules, filter, fail)
              == ReconcileSettings(s, rules, filter, fail)
  {
  }
}
