/**
 * How the two scripts' state tables relate: `state_abbreviations` of the map
 * script is `us_state_to_full` of the aggregator read backwards, without the
 * District of Columbia.  The two scripts are not otherwise connected here.
 * Each direction is proved over groups of five states, in table order, so
 * that every proof stays small.
 */
module StateTables {
  import opened Wrappers
  import StationAggregation
  import ChoroplethMap

  /** The states from Alabama to California, by name and by code. */
  const NamesAlabamaToCalifornia: set<string> := {"Alabama", "Alaska", "Arizona", "Arkansas", "California"}
  const CodesAlabamaToCalifornia: set<string> := {"AL", "AK", "AZ", "AR", "CA"}

  /** The states from Colorado to Georgia, by name and by code. */
  const NamesColoradoToGeorgia: set<string> := {"Colorado", "Connecticut", "Delaware", "Florida", "Georgia"}
  const CodesColoradoToGeorgia: set<string> := {"CO", "CT", "DE", "FL", "GA"}

  /** The states from Hawaii to Iowa, by name and by code. */
  const NamesHawaiiToIowa: set<string> := {"Hawaii", "Idaho", "Illinois", "Indiana", "Iowa"}
  const CodesHawaiiToIowa: set<string> := {"HI", "ID", "IL", "IN", "IA"}

  /** The states from Kansas to Maryland, by name and by code. */
  const NamesKansasToMaryland: set<string> := {"Kansas", "Kentucky", "Louisiana", "Maine", "Maryland"}
  const CodesKansasToMaryland: set<string> := {"KS", "KY", "LA", "ME", "MD"}

  /** The states from Massachusetts to Missouri, by name and by code. */
  const NamesMassachusettsToMissouri: set<string> := {"Massachusetts", "Michigan", "Minnesota", "Mississippi", "Missouri"}
  const CodesMassachusettsToMissouri: set<string> := {"MA", "MI", "MN", "MS", "MO"}

  /** The states from Montana to New Jersey, by name and by code. */
  const NamesMontanaToNewJersey: set<string> := {"Montana", "Nebraska", "Nevada", "New Hampshire", "New Jersey"}
  const CodesMontanaToNewJersey: set<string> := {"MT", "NE", "NV", "NH", "NJ"}

  /** The states from New Mexico to Ohio, by name and by code. */
  const NamesNewMexicoToOhio: set<string> := {"New Mexico", "New York", "North Carolina", "North Dakota", "Ohio"}
  const CodesNewMexicoToOhio: set<string> := {"NM", "NY", "NC", "ND", "OH"}

  /** The states from Oklahoma to South Carolina, by name and by code. */
  const NamesOklahomaToSouthCarolina: set<string> := {"Oklahoma", "Oregon", "Pennsylvania", "Rhode Island", "South Carolina"}
  const CodesOklahomaToSouthCarolina: set<string> := {"OK", "OR", "PA", "RI", "SC"}

  /** The states from South Dakota to Vermont, by name and by code. */
  const NamesSouthDakotaToVermont: set<string> := {"South Dakota", "Tennessee", "Texas", "Utah", "Vermont"}
  const CodesSouthDakotaToVermont: set<string> := {"SD", "TN", "TX", "UT", "VT"}

  /** The states from Virginia to Wyoming, by name and by code. */
  const NamesVirginiaToWyoming: set<string> := {"Virginia", "Washington", "West Virginia", "Wisconsin", "Wyoming"}
  const CodesVirginiaToWyoming: set<string> := {"VA", "WA", "WV", "WI", "WY"}

  /** Every abbreviation used for a label is a code whose full name is that state. */
  lemma AbbreviationsInvertFullNames(name: string)
    ensures ChoroplethMap.StateAbbreviation(name).Some? ==>
      StationAggregation.StateFullName(ChoroplethMap.StateAbbreviation(name).value) == Some(name)
  {
    if name in NamesAlabamaToCalifornia {
      AbbreviationsInvertAlabamaToCalifornia(name);
    } else if name in NamesColoradoToGeorgia {
      AbbreviationsInvertColoradoToGeorgia(name);
    } else if name in NamesHawaiiToIowa {
      AbbreviationsInvertHawaiiToIowa(name);
    } else if name in NamesKansasToMaryland {
      AbbreviationsInvertKansasToMaryland(name);
    } else if name in NamesMassachusettsToMissouri {
      AbbreviationsInvertMassachusettsToMissouri(name);
    } else if name in NamesMontanaToNewJersey {
      AbbreviationsInvertMontanaToNewJersey(name);
    } else if name in NamesNewMexicoToOhio {
      AbbreviationsInvertNewMexicoToOhio(name);
    } else if name in NamesOklahomaToSouthCarolina {
      AbbreviationsInvertOklahomaToSouthCarolina(name);
    } else if name in NamesSouthDakotaToVermont {
      AbbreviationsInvertSouthDakotaToVermont(name);
    } else if name in NamesVirginiaToWyoming {
      AbbreviationsInvertVirginiaToWyoming(name);
    }
  }

  /** Every code but DC is the abbreviation of its own full name. */
  lemma FullNamesInvertAbbreviations(code: string)
    ensures StationAggregation.StateFullName(code).Some? && code != "DC" ==>
      ChoroplethMap.StateAbbreviation(StationAggregation.StateFullName(code).value) == Some(code)
  {
    if code in CodesAlabamaToCalifornia {
      FullNamesInvertAlabamaToCalifornia(code);
    } else if code in CodesColoradoToGeorgia {
      FullNamesInvertColoradoToGeorgia(code);
    } else if code in CodesHawaiiToIowa {
      FullNamesInvertHawaiiToIowa(code);
    } else if code in CodesKansasToMaryland {
      FullNamesInvertKansasToMaryland(code);
    } else if code in CodesMassachusettsToMissouri {
      FullNamesInvertMassachusettsToMissouri(code);
    } else if code in CodesMontanaToNewJersey {
      FullNamesInvertMontanaToNewJersey(code);
    } else if code in CodesNewMexicoToOhio {
      FullNamesInvertNewMexicoToOhio(code);
    } else if code in CodesOklahomaToSouthCarolina {
      FullNamesInvertOklahomaToSouthCarolina(code);
    } else if code in CodesSouthDakotaToVermont {
      FullNamesInvertSouthDakotaToVermont(code);
    } else if code in CodesVirginiaToWyoming {
      FullNamesInvertVirginiaToWyoming(code);
    }
  }

  lemma AbbreviationsInvertAlabamaToCalifornia(name: string)
    requires name in NamesAlabamaToCalifornia
    ensures ChoroplethMap.StateAbbreviation(name).Some?
    ensures StationAggregation.StateFullName(ChoroplethMap.StateAbbreviation(name).value) == Some(name)
  {
  }

  lemma FullNamesInvertAlabamaToCalifornia(code: string)
    requires code in CodesAlabamaToCalifornia
    ensures StationAggregation.StateFullName(code).Some?
    ensures ChoroplethMap.StateAbbreviation(StationAggregation.StateFullName(code).value) == Some(code)
  {
  }

  lemma AbbreviationsInvertColoradoToGeorgia(name: string)
    requires name in NamesColoradoToGeorgia
    ensures ChoroplethMap.StateAbbreviation(name).Some?
    ensures StationAggregation.StateFullName(ChoroplethMap.StateAbbreviation(name).value) == Some(name)
  {
  }

  lemma FullNamesInvertColoradoToGeorgia(code: string)
    requires code in CodesColoradoToGeorgia
    ensures StationAggregation.StateFullName(code).Some?
    ensures ChoroplethMap.StateAbbreviation(StationAggregation.StateFullName(code).value) == Some(code)
  {
  }

  lemma AbbreviationsInvertHawaiiToIowa(name: string)
    requires name in NamesHawaiiToIowa
    ensures ChoroplethMap.StateAbbreviation(name).Some?
    ensures StationAggregation.StateFullName(ChoroplethMap.StateAbbreviation(name).value) == Some(name)
  {
  }

  lemma FullNamesInvertHawaiiToIowa(code: string)
    requires code in CodesHawaiiToIowa
    ensures StationAggregation.StateFullName(code).Some?
    ensures ChoroplethMap.StateAbbreviation(StationAggregation.StateFullName(code).value) == Some(code)
  {
  }

  lemma AbbreviationsInvertKansasToMaryland(name: string)
    requires name in NamesKansasToMaryland
    ensures ChoroplethMap.StateAbbreviation(name).Some?
    ensures StationAggregation.StateFullName(ChoroplethMap.StateAbbreviation(name).value) == Some(name)
  {
  }

  lemma FullNamesInvertKansasToMaryland(code: string)
    requires code in CodesKansasToMaryland
    ensures StationAggregation.StateFullName(code).Some?
    ensures ChoroplethMap.StateAbbreviation(StationAggregation.StateFullName(code).value) == Some(code)
  {
  }

  lemma AbbreviationsInvertMassachusettsToMissouri(name: string)
    requires name in NamesMassachusettsToMissouri
    ensures ChoroplethMap.StateAbbreviation(name).Some?
    ensures StationAggregation.StateFullName(ChoroplethMap.StateAbbreviation(name).value) == Some(name)
  {
  }

  lemma FullNamesInvertMassachusettsToMissouri(code: string)
    requires code in CodesMassachusettsToMissouri
    ensures StationAggregation.StateFullName(code).Some?
    ensures ChoroplethMap.StateAbbreviation(StationAggregation.StateFullName(code).value) == Some(code)
  {
  }

  lemma AbbreviationsInvertMontanaToNewJersey(name: string)
    requires name in NamesMontanaToNewJersey
    ensures ChoroplethMap.StateAbbreviation(name).Some?
    ensures StationAggregation.StateFullName(ChoroplethMap.StateAbbreviation(name).value) == Some(name)
  {
  }

  lemma FullNamesInvertMontanaToNewJersey(code: string)
    requires code in CodesMontanaToNewJersey
    ensures StationAggregation.StateFullName(code).Some?
    ensures ChoroplethMap.StateAbbreviation(StationAggregation.StateFullName(code).value) == Some(code)
  {
  }

  lemma AbbreviationsInvertNewMexicoToOhio(name: string)
    requires name in NamesNewMexicoToOhio
    ensures ChoroplethMap.StateAbbreviation(name).Some?
    ensures StationAggregation.StateFullName(ChoroplethMap.StateAbbreviation(name).value) == Some(name)
  {
  }

  lemma FullNamesInvertNewMexicoToOhio(code: string)
    requires code in CodesNewMexicoToOhio
    ensures StationAggregation.StateFullName(code).Some?
    ensures ChoroplethMap.StateAbbreviation(StationAggregation.StateFullName(code).value) == Some(code)
  {
  }

  lemma AbbreviationsInvertOklahomaToSouthCarolina(name: string)
    requires name in NamesOklahomaToSouthCarolina
    ensures ChoroplethMap.StateAbbreviation(name).Some?
    ensures StationAggregation.StateFullName(ChoroplethMap.StateAbbreviation(name).value) == Some(name)
  {
  }

  lemma FullNamesInvertOklahomaToSouthCarolina(code: string)
    requires code in CodesOklahomaToSouthCarolina
    ensures StationAggregation.StateFullName(code).Some?
    ensures ChoroplethMap.StateAbbreviation(StationAggregation.StateFullName(code).value) == Some(code)
  {
  }

  lemma AbbreviationsInvertSouthDakotaToVermont(name: string)
    requires name in NamesSouthDakotaToVermont
    ensures ChoroplethMap.StateAbbreviation(name).Some?
    ensures StationAggregation.StateFullName(ChoroplethMap.StateAbbreviation(name).value) == Some(name)
  {
  }

  lemma FullNamesInvertSouthDakotaToVermont(code: string)
    requires code in CodesSouthDakotaToVermont
    ensures StationAggregation.StateFullName(code).Some?
    ensures ChoroplethMap.StateAbbreviation(StationAggregation.StateFullName(code).value) == Some(code)
  {
  }

  lemma AbbreviationsInvertVirginiaToWyoming(name: string)
    requires name in NamesVirginiaToWyoming
    ensures ChoroplethMap.StateAbbreviation(name).Some?
    ensures StationAggregation.StateFullName(ChoroplethMap.StateAbbreviation(name).value) == Some(name)
  {
  }

  lemma FullNamesInvertVirginiaToWyoming(code: string)
    requires code in CodesVirginiaToWyoming
    ensures StationAggregation.StateFullName(code).Some?
    ensures ChoroplethMap.StateAbbreviation(StationAggregation.StateFullName(code).value) == Some(code)
  {
  }

  /** DC is in the aggregator's table and is the one name the label table leaves out. */
  lemma DistrictOfColumbiaOnlyInFullNames()
    ensures StationAggregation.StateFullName("DC") == Some("District of Columbia")
    ensures ChoroplethMap.StateAbbreviation("District of Columbia").None?
  {
  }

  /** No two codes of `us_state_to_full` give the same full name. */
  lemma StateFullNameInjective(a: string, b: string)
    requires StationAggregation.StateFullName(a).Some?
    requires StationAggregation.StateFullName(a) == StationAggregation.StateFullName(b)
    ensures a == b
  {
    var name := StationAggregation.StateFullName(a).value;
    DistrictOfColumbiaOnlyInFullNames();
    FullNamesInvertAbbreviations(a);
    FullNamesInvertAbbreviations(b);
    if a == "DC" || b == "DC" {
      assert name == "District of Columbia";
    }
  }

  /**
   * A state name gets a label exactly when it is the full name of some code
   * other than DC.
   */
  lemma LabelledExactlyMappedStates(name: string)
    ensures ChoroplethMap.StateAbbreviation(name).Some? <==>
      name != "District of Columbia" && exists code :: StationAggregation.StateFullName(code) == Some(name)
  {
    DistrictOfColumbiaOnlyInFullNames();
    if ChoroplethMap.StateAbbreviation(name).Some? {
      AbbreviationsInvertFullNames(name);
    }
    if name != "District of Columbia" && exists code :: StationAggregation.StateFullName(code) == Some(name) {
      var code :| StationAggregation.StateFullName(code) == Some(name);
      FullNamesInvertAbbreviations(code);
    }
  }
}
