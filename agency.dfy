/** The agency table: the operator URL lookup and the single agency row. */
module Agency {
  import opened Results
  import opened Records

  /** The operator codes with a known web address. */
  predicate KnownOperator(code: string) {
    code in ["OId_LUL", "OId_DLR", "OId_TRS", "OId_CCR", "OId_CV", "OId_WFF", "OId_TCL", "OId_EAL"]
  }

  /** `get_agency_url`: the address of a listed operator, `NA` otherwise. */
  function AgencyUrl(code: string): (url: string)
    ensures code == "OId_LUL" ==> url == "https://tfl.gov.uk/maps/track/tube"
    ensures code == "OId_DLR" ==> url == "https://tfl.gov.uk/modes/dlr/"
    ensures code == "OId_TRS" ==> url == "https://www.thamesriverservices.co.uk/"
    ensures code == "OId_CCR" ==> url == "https://www.citycruises.com/"
    ensures code == "OId_CV" ==> url == "https://www.thamesclippers.com/"
    ensures code == "OId_WFF" ==> url == "https://tfl.gov.uk/modes/river/woolwich-ferry"
    ensures code == "OId_TCL" ==> url == "https://tfl.gov.uk/modes/trams/"
    ensures code == "OId_EAL" ==> url == "https://www.emiratesairline.co.uk/"
    ensures !KnownOperator(code) ==> url == "NA"
  {
    match code
    case "OId_LUL" => "https://tfl.gov.uk/maps/track/tube"
    case "OId_DLR" => "https://tfl.gov.uk/modes/dlr/"
    case "OId_TRS" => "https://www.thamesriverservices.co.uk/"
    case "OId_CCR" => "https://www.citycruises.com/"
    case "OId_CV" => "https://www.thamesclippers.com/"
    case "OId_WFF" => "https://tfl.gov.uk/modes/river/woolwich-ferry"
    case "OId_TCL" => "https://tfl.gov.uk/modes/trams/"
    case "OId_EAL" => "https://www.emiratesairline.co.uk/"
    case _ => "NA"
  }

  const Timezone: string := "Europe/London"
  const Language: string := "en"

  /** A row of agency.txt. */
  datatype AgencyRow = AgencyRow(id: string, name: string, url: string, timezone: string, lang: string)

  /** `get_agency`: one row for the document's Operator. With other than one
      Operator element, `Operators.Operator.get_attribute` is an attribute
      error. */
  function AgencyOf(doc: Document): (r: Result<seq<AgencyRow>>)
    ensures r.Err? <==> |doc.operators| != 1
    ensures r.Err? ==> r.error == AttributeError
    ensures r.Ok? ==> |r.value| == 1
    ensures r.Ok? ==> r.value[0].id == doc.operators[0].id && r.value[0].name == doc.operators[0].nameOnLicence
    ensures r.Ok? ==> r.value[0].url == AgencyUrl(doc.operators[0].id)
    ensures r.Ok? ==> r.value[0].timezone == "Europe/London" && r.value[0].lang == "en"
  {
    if |doc.operators| != 1 then Err(AttributeError)
    else
      var op := doc.operators[0];
      Ok([AgencyRow(op.id, op.nameOnLicence, AgencyUrl(op.id), Timezone, Language)])
  }

  /** Exactly the listed operators have an address: every one of them gets a
      secure web address, every other code `NA`. */
  lemma AgencyUrlKnown(code: string)
    ensures KnownOperator(code) <==> AgencyUrl(code) != "NA"
    ensures KnownOperator(code) ==> AgencyUrl(code)[..8] == "https://"
  {
  }
}
