/** The attachment's file name, read back from the rendered report: the
    patient banner's cell texts are split at spaces and reassembled as
    "<nhs number>_<name>_<birth date>.pdf". */
module OutgoingEmailBuilder {
  import opened Wrappers
  import opened Text
  import opened PatientIdentifierModel

  /** The rendered report, reduced to the element with id "patientBanner":
      the text of every cell of each table inside it, in document order. */
  datatype Document = Document(patientBanner: Option<Banner>)
  datatype Banner = Banner(tables: seq<seq<string>>)

  /** Reading a date of birth "dd-MMM-yyyy" and writing it as "YYYYMMdd"
      (week-based year, default time zone): a string when the text parses,
      None when parsing throws ParseException. */
  type DobConversion = string -> Option<string>

  /** The cell texts of the banner's first table; NullPointerException when there
      is no banner element or it holds no table. */
  function BannerCells(doc: Document): (r: Result<seq<string>, Exception>)
    ensures r.Err? <==> doc.patientBanner.None? || |doc.patientBanner.value.tables| == 0
    ensures r.Err? ==> r.error == NullPointerException
    ensures r.Ok? ==> r.value == doc.patientBanner.value.tables[0]
  {
    match doc.patientBanner
    case None => Err(NullPointerException)
    case Some(banner) => if |banner.tables| == 0 then Err(NullPointerException) else Ok(banner.tables[0])
  }

  /** Everything createFileName needs is there: four cells, enough tokens in
      the three it reads, and a birth date that parses. */
  predicate Readable(cells: seq<string>, dob: DobConversion) {
    && |cells| >= 4
    && |JavaSplit(cells[0], ' ')| >= 2
    && |JavaSplit(cells[1], ' ')| >= 2
    && dob(JavaSplit(cells[1], ' ')[1]).Some?
    && |JavaSplit(cells[3], ' ')| >= 6
  }

  /** createFileName: the NHS number is tokens 3, 4 and 5 of the fourth cell
      run together, the name the second token of the first cell, the birth
      date the second token of the second cell converted. A missing banner,
      cell or token, or an unparsable date, throws. */
  function CreateFileName(doc: Document, dob: DobConversion): (r: Result<string, Exception>)
    ensures r.Ok? <==> BannerCells(doc).Ok? && Readable(BannerCells(doc).value, dob)
    ensures r.Ok? ==>
              var cells := BannerCells(doc).value;
              var nhs := JavaSplit(cells[3], ' ');
              r.value == nhs[3] + nhs[4] + nhs[5] + "_" + JavaSplit(cells[0], ' ')[1] + "_"
                         + dob(JavaSplit(cells[1], ' ')[1]).value + ".pdf"
    ensures r.Ok? ==> |r.value| >= 6 && r.value[|r.value| - 4..] == ".pdf"
    ensures r.Err? ==> r.error in {NullPointerException, IndexOutOfBoundsException, ParseException}
  {
    match BannerCells(doc)
    case Err(e) => Err(e)
    case Ok(cells) =>
      if |cells| < 1 || |JavaSplit(cells[0], ' ')| < 2 then Err(IndexOutOfBoundsException)
      else
        var name := JavaSplit(cells[0], ' ')[1];
        if |cells| < 2 || |JavaSplit(cells[1], ' ')| < 2 then Err(IndexOutOfBoundsException)
        else match dob(JavaSplit(cells[1], ' ')[1])
          case None => Err(ParseException)
          case Some(stamp) =>
            if |cells| < 4 || |JavaSplit(cells[3], ' ')| < 6 then Err(IndexOutOfBoundsException)
            else
              var split := JavaSplit(cells[3], ' ');
              var nhsNumber := split[3] + split[4] + split[5];
              Ok(nhsNumber + "_" + name + "_" + stamp + ".pdf")
  }

  /** The fourth banner cell: three labels and the grouped NHS number are, as
      words, the three labels and the number's three groups. */
  lemma GroupedNhsCell(nhsLabels: seq<string>, nhs: string)
    requires |nhsLabels| == 3 && forall i :: 0 <= i < 3 ==> ' ' !in nhsLabels[i]
    requires ' ' !in nhs && |nhs| >= 7
    ensures var tokens := nhsLabels + [nhs[..4], nhs[4..7], nhs[7..]];
            && Join(nhsLabels + [FormatNhsNumber(nhs)], ' ') == Join(tokens, ' ')
            && forall i :: 0 <= i < |tokens| ==> ' ' !in tokens[i]
  {
    var groups := [nhs[..4], nhs[4..7], nhs[7..]];
    var tokens := nhsLabels + groups;
    JoinThree(groups[0], groups[1], groups[2], ' ');
    assert FormatNhsNumber(nhs) == Join(groups, ' ');
    JoinAppend(nhsLabels, groups, ' ');
    JoinAppend(nhsLabels, [FormatNhsNumber(nhs)], ' ');
    forall i | 0 <= i < |tokens| ensures ' ' !in tokens[i] {
      if i >= 3 {
        assert tokens[i] == groups[i - 3];
        assert forall c :: c in groups[i - 3] ==> c in nhs;
      }
    }
  }

  /** The NHS number shown in the banner as "<label> <label> <label> 9932 541 28"
      (grouped by formatNhsNumber) comes back ungrouped in the file name, next
      to the name and the converted birth date. */
  lemma {:induction false} FileNameUngroupsNhsNumber(
    doc: Document, dob: DobConversion,
    nameLabel: string, name: string, dobLabel: string, dobText: string, stamp: string,
    nhsLabels: seq<string>, nhs: string)
    requires doc.patientBanner.Some? && |doc.patientBanner.value.tables| > 0
    requires var cells := doc.patientBanner.value.tables[0];
             && |cells| >= 4
             && cells[0] == Join([nameLabel, name], ' ')
             && cells[1] == Join([dobLabel, dobText], ' ')
             && cells[3] == Join(nhsLabels + [FormatNhsNumber(nhs)], ' ')
    requires ' ' !in nameLabel && ' ' !in name && name != ""
    requires ' ' !in dobLabel && ' ' !in dobText && dobText != "" && dob(dobText) == Some(stamp)
    requires |nhsLabels| == 3 && forall i :: 0 <= i < 3 ==> ' ' !in nhsLabels[i]
    requires ' ' !in nhs && |nhs| > 7
    ensures CreateFileName(doc, dob) == Ok(nhs + "_" + name + "_" + stamp + ".pdf")
  {
    var cells := doc.patientBanner.value.tables[0];
    JavaSplitOfJoin([nameLabel, name], ' ');
    JavaSplitOfJoin([dobLabel, dobText], ' ');
    var groups := [nhs[..4], nhs[4..7], nhs[7..]];
    var tokens := nhsLabels + groups;
    GroupedNhsCell(nhsLabels, nhs);
    JavaSplitOfJoin(tokens, ' ');
    assert groups[0] + groups[1] + groups[2] == nhs;
  }

  /** An NHS number of exactly seven characters is shown with an empty last
      group, so the fourth cell's words end in an empty one. The lemma takes
      that cell text as it is; the HTML parser's text() would trim the
      trailing space, which removes the same empty token, so either way the
      cell is one token short and the file name cannot be made. */
  lemma SevenCharacterNhsNumberFails(
    doc: Document, dob: DobConversion,
    nameLabel: string, name: string, dobLabel: string, dobText: string, stamp: string,
    nhsLabels: seq<string>, nhs: string)
    requires doc.patientBanner.Some? && |doc.patientBanner.value.tables| > 0
    requires var cells := doc.patientBanner.value.tables[0];
             && |cells| >= 4
             && cells[0] == Join([nameLabel, name], ' ')
             && cells[1] == Join([dobLabel, dobText], ' ')
             && cells[3] == Join(nhsLabels + [FormatNhsNumber(nhs)], ' ')
    requires ' ' !in nameLabel && ' ' !in name && name != ""
    requires ' ' !in dobLabel && ' ' !in dobText && dobText != "" && dob(dobText) == Some(stamp)
    requires |nhsLabels| == 3 && forall i :: 0 <= i < 3 ==> ' ' !in nhsLabels[i]
    requires ' ' !in nhs && |nhs| == 7
    ensures CreateFileName(doc, dob) == Err(IndexOutOfBoundsException)
  {
    JavaSplitOfJoin([nameLabel, name], ' ');
    JavaSplitOfJoin([dobLabel, dobText], ' ');
    var cells := doc.patientBanner.value.tables[0];
    assert JavaSplit(cells[0], ' ') == [nameLabel, name];
    assert JavaSplit(cells[1], ' ') == [dobLabel, dobText];
    var tokens := nhsLabels + [nhs[..4], nhs[4..7], nhs[7..]];
    GroupedNhsCell(nhsLabels, nhs);
    assert tokens[|tokens| - 1] == "";
    assert |JavaSplit(cells[3], ' ')| < 6 by {
      JavaSplitOfJoinEmptyLast(tokens, ' ');
    }
  }
}
