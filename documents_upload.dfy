/** src/app/api/documents/upload/route.ts: the two file-name classifiers and the per-file
    loop of `POST`.

    Saving the file, the vision call that extracts its text and `Date.now()` are not
    modelled: each uploaded file carries the outcome of its extraction. */
module DocumentsUpload {
  import opened JsBuiltins
  import opened ChatStore

  // ---------------------------------------------------------------------------
  // detectDocumentType
  // ---------------------------------------------------------------------------

  predicate ContractWord(lower: string)
  {
    Includes(lower, "contrato") || Includes(lower, "contract")
  }

  predicate PolicyWord(lower: string)
  {
    Includes(lower, "apolice") || Includes(lower, "policy") || Includes(lower, "apólice")
  }

  predicate RegulationWord(lower: string)
  {
    Includes(lower, "regulamento") || Includes(lower, "regulation") || Includes(lower, "rn") || Includes(lower, "ri")
  }

  predicate ReportWord(lower: string)
  {
    Includes(lower, "relatorio") || Includes(lower, "report") || Includes(lower, "relatório")
  }

  /** The first group of words, in the order contract, policy, regulation, report, that the
      lower-cased name contains; other when none. */
  function DetectDocumentType(filename: string): (t: DocumentType)
    ensures t == ContractDoc <==> ContractWord(ToLower(filename))
    ensures t == Policy <==> !ContractWord(ToLower(filename)) && PolicyWord(ToLower(filename))
    ensures t == Regulation <==>
              !ContractWord(ToLower(filename)) && !PolicyWord(ToLower(filename)) && RegulationWord(ToLower(filename))
    ensures t == Report <==>
              !ContractWord(ToLower(filename)) && !PolicyWord(ToLower(filename))
              && !RegulationWord(ToLower(filename)) && ReportWord(ToLower(filename))
    ensures t == Other <==>
              !ContractWord(ToLower(filename)) && !PolicyWord(ToLower(filename))
              && !RegulationWord(ToLower(filename)) && !ReportWord(ToLower(filename))
  {
    var lower := ToLower(filename);
    if ContractWord(lower) then ContractDoc
    else if PolicyWord(lower) then Policy
    else if RegulationWord(lower) then Regulation
    else if ReportWord(lower) then Report
    else Other
  }

  /** "rn" and "ri" are checked before the report words, and both Portuguese report words
      contain "ri": a name is a report only through "report". "relatorio" and "relatório"
      names are regulations unless they carry a contract or policy word. */
  lemma ReportOnlyInEnglish(filename: string)
    ensures DetectDocumentType(filename) == Report ==> Includes(ToLower(filename), "report")
    ensures var lower := ToLower(filename);
      (Includes(lower, "relatorio") || Includes(lower, "relatório")) && !ContractWord(lower) && !PolicyWord(lower)
      ==> DetectDocumentType(filename) == Regulation
  {
    var lower := ToLower(filename);
    assert OccursAt("relatorio", "ri", 6);
    assert OccursAt("relatório", "ri", 6);
    if Includes(lower, "relatorio") {
      IncludesTransitive(lower, "relatorio", "ri");
    }
    if Includes(lower, "relatório") {
      IncludesTransitive(lower, "relatório", "ri");
    }
  }

  /** A name containing "rn" or "ri" and no contract or policy word is a regulation. */
  lemma ShortCodesAreRegulations(filename: string)
    requires Includes(ToLower(filename), "rn") || Includes(ToLower(filename), "ri")
    requires !ContractWord(ToLower(filename)) && !PolicyWord(ToLower(filename))
    ensures DetectDocumentType(filename) == Regulation
  {
  }

  // ---------------------------------------------------------------------------
  // detectCategory
  // ---------------------------------------------------------------------------

  datatype Category = AnsRn | AnsRi | AnsDo | Ans | Susep | Contratual | Outros

  /** The string `detectCategory` returns for each category. */
  function CategoryName(c: Category): string
  {
    match c
    case AnsRn => "ANS-RN"
    case AnsRi => "ANS-RI"
    case AnsDo => "ANS-DO"
    case Ans => "ANS"
    case Susep => "SUSEP"
    case Contratual => "Contratual"
    case Outros => "Outros"
  }

  predicate RnRule(upper: string)
  {
    Includes(upper, "RN") || Includes(upper, "RESOLUÇÃO NORMATIVA")
  }

  predicate RiRule(upper: string)
  {
    Includes(upper, "RI") || Includes(upper, "RESOLUÇÃO INSTITUCIONAL")
  }

  predicate DoRule(upper: string)
  {
    Includes(upper, "DO-") || Includes(upper, "DIRETRIZ")
  }

  /** The first rule, in the order ANS-RN, ANS-RI, ANS-DO, ANS, SUSEP, Contratual, that the
      upper-cased name meets; Outros when none. */
  function DetectCategory(filename: string): (c: Category)
    ensures c == AnsRn <==> RnRule(ToUpper(filename))
    ensures c == AnsRi <==> !RnRule(ToUpper(filename)) && RiRule(ToUpper(filename))
    ensures c == AnsDo <==> !RnRule(ToUpper(filename)) && !RiRule(ToUpper(filename)) && DoRule(ToUpper(filename))
    ensures c == Ans <==>
              !RnRule(ToUpper(filename)) && !RiRule(ToUpper(filename)) && !DoRule(ToUpper(filename))
              && Includes(ToUpper(filename), "ANS")
    ensures c == Susep <==>
              !RnRule(ToUpper(filename)) && !RiRule(ToUpper(filename)) && !DoRule(ToUpper(filename))
              && !Includes(ToUpper(filename), "ANS") && Includes(ToUpper(filename), "SUSEP")
    ensures c == Contratual <==>
              !RnRule(ToUpper(filename)) && !RiRule(ToUpper(filename)) && !DoRule(ToUpper(filename))
              && !Includes(ToUpper(filename), "ANS") && !Includes(ToUpper(filename), "SUSEP")
              && Includes(ToUpper(filename), "CONTRATO")
    ensures c == Outros <==>
              !RnRule(ToUpper(filename)) && !RiRule(ToUpper(filename)) && !DoRule(ToUpper(filename))
              && !Includes(ToUpper(filename), "ANS") && !Includes(ToUpper(filename), "SUSEP")
              && !Includes(ToUpper(filename), "CONTRATO")
  {
    var upper := ToUpper(filename);
    if RnRule(upper) then AnsRn
    else if RiRule(upper) then AnsRi
    else if DoRule(upper) then AnsDo
    else if Includes(upper, "ANS") then Ans
    else if Includes(upper, "SUSEP") then Susep
    else if Includes(upper, "CONTRATO") then Contratual
    else Outros
  }

  /** "DIRETRIZ" contains "RI", which is checked first: a name is ANS-DO only through
      "DO-", and a "DIRETRIZ" name is ANS-RN or ANS-RI. */
  lemma DiretrizIsInstitutional(filename: string)
    ensures DetectCategory(filename) == AnsDo ==> Includes(ToUpper(filename), "DO-")
    ensures Includes(ToUpper(filename), "DIRETRIZ") ==> DetectCategory(filename) in {AnsRn, AnsRi}
  {
    var upper := ToUpper(filename);
    assert OccursAt("DIRETRIZ", "RI", 5);
    if Includes(upper, "DIRETRIZ") {
      IncludesTransitive(upper, "DIRETRIZ", "RI");
    }
  }

  /** Upper-casing makes the rules case-blind for ASCII letters: "rn" in any case is
      ANS-RN. */
  lemma LowerCaseRn(filename: string, i: nat)
    requires i + 1 < |filename| && filename[i] in {'r', 'R'} && filename[i + 1] in {'n', 'N'}
    ensures DetectCategory(filename) == AnsRn
  {
    var upper := ToUpper(filename);
    assert upper[i..i + 2] == "RN";
    assert OccursAt(upper, "RN", i);
  }

  // ---------------------------------------------------------------------------
  // POST
  // ---------------------------------------------------------------------------

  /** What the vision call gave: `choices[0]?.message?.content` (None when missing), or a
      thrown error. */
  datatype Extraction = Extracted(content: Option<string>) | ExtractionFailed

  /** An entry of `formData.getAll("files")`. */
  datatype UploadedFile = UploadedFile(name: string, size: int, extraction: Extraction)

  /** An entry of `processedDocuments`. */
  datatype ProcessedDocument = ProcessedDocument(name: string, docType: DocumentType, category: string, size: int, content: string)

  datatype UploadResponse =
    | Uploaded(documents: seq<ProcessedDocument>, message: string)
    | Rejected(status: int, error: string)

  const NoFiles: string := "Nenhum arquivo enviado"

  /** `extractedContent`: the extracted text, or "" when the call failed or gave none. */
  function ExtractedText(e: Extraction): string
  {
    match e
    case Extracted(Some(content)) => content
    case _ => ""
  }

  function Record(file: UploadedFile): ProcessedDocument
  {
    ProcessedDocument(file.name, DetectDocumentType(file.name), CategoryName(DetectCategory(file.name)),
                      file.size, ExtractedText(file.extraction))
  }

  /** `if (!file.name) continue;`. */
  function Named(): UploadedFile -> bool
  {
    (f: UploadedFile) => f.name != []
  }

  /** The record of one file, none for a nameless one. */
  function RecordOf(file: UploadedFile): seq<ProcessedDocument>
  {
    if file.name != [] then [Record(file)] else []
  }

  /** The records of the named files, in input order. */
  function Records(files: seq<UploadedFile>): seq<ProcessedDocument>
    decreases |files|
  {
    if files == [] then [] else RecordOf(files[0]) + Records(files[1..])
  }

  function SuccessMessage(count: nat): string
  {
    NatToString(count) + " documento(s) processado(s) com sucesso"
  }

  /** What `POST` returns for the uploaded files. */
  function UploadResult(files: seq<UploadedFile>): UploadResponse
  {
    if files == [] then Rejected(400, NoFiles)
    else Uploaded(Records(files), SuccessMessage(|Records(files)|))
  }

  lemma {:induction false} RecordsAppend(files: seq<UploadedFile>, f: UploadedFile)
    ensures Records(files + [f]) == Records(files) + RecordOf(f)
    decreases |files|
  {
    if files == [] {
      assert [f][1..] == [];
      assert Records([f]) == RecordOf(f) + Records([]);
    } else {
      assert (files + [f])[1..] == files[1..] + [f];
      RecordsAppend(files[1..], f);
      calc {
        Records(files + [f]);
        RecordOf(files[0]) + Records(files[1..] + [f]);
        RecordOf(files[0]) + (Records(files[1..]) + RecordOf(f));
        (RecordOf(files[0]) + Records(files[1..])) + RecordOf(f);
      }
    }
  }

  /** One record per named file: the count is the number of files `Named` keeps. */
  lemma {:induction false} RecordsCount(files: seq<UploadedFile>)
    ensures |Records(files)| == |Filter(files, Named())|
    decreases |files|
  {
    if files != [] {
      RecordsCount(files[1..]);
      assert |Records(files)| == |RecordOf(files[0])| + |Records(files[1..])|;
    }
  }

  lemma RecordsPrefix(files: seq<UploadedFile>, i: int)
    requires 0 <= i < |files|
    ensures Records(files[..i + 1]) == Records(files[..i]) + RecordOf(files[i])
  {
    assert files[..i + 1] == files[..i] + [files[i]];
    RecordsAppend(files[..i], files[i]);
  }

  /** The body of the loop for a named file: its extracted text, type and category. */
  method ProcessFile(file: UploadedFile) returns (record: ProcessedDocument)
    ensures record == Record(file)
  {
    var extractedContent := "";
    if file.extraction.Extracted? && file.extraction.content.Some? {
      extractedContent := file.extraction.content.value;
    }
    var docType := DetectDocumentType(file.name);
    var category := DetectCategory(file.name);
    record := ProcessedDocument(file.name, docType, CategoryName(category), file.size, extractedContent);
  }

  /** The per-file loop. */
  method Post(files: seq<UploadedFile>) returns (result: UploadResponse)
    ensures result == UploadResult(files)
  {
    if |files| == 0 {
      return Rejected(400, NoFiles);
    }
    var processedDocuments: seq<ProcessedDocument> := [];
    for i := 0 to |files|
      invariant processedDocuments == Records(files[..i])
    {
      var file := files[i];
      RecordsPrefix(files, i);
      if file.name == [] {
        continue;
      }
      var record := ProcessFile(file);
      processedDocuments := processedDocuments + [record];
    }
    assert files[..|files|] == files;
    result := Uploaded(processedDocuments, SuccessMessage(|processedDocuments|));
  }

  /** Every record comes from a named file and carries the file's name, size and detected
      type and category; a failed extraction gives empty content. */
  lemma {:induction false} RecordsFromFiles(files: seq<UploadedFile>)
    ensures forall d :: d in Records(files) ==>
              exists f :: f in files && f.name != [] && d == Record(f)
    ensures forall f :: f in files && f.name != [] ==> Record(f) in Records(files)
    decreases |files|
  {
    if files != [] {
      RecordsFromFiles(files[1..]);
      var head := RecordOf(files[0]);
      assert Records(files) == head + Records(files[1..]);
      forall d | d in Records(files) ensures exists f :: f in files && f.name != [] && d == Record(f) {
        if d in head {
          assert files[0] in files;
        } else {
          var f :| f in files[1..] && f.name != [] && d == Record(f);
          assert f in files;
        }
      }
      forall f | f in files && f.name != [] ensures Record(f) in Records(files) {
        if f != files[0] {
          assert f in files[1..];
        }
      }
    }
  }

  /** Nameless files are skipped and nothing else is: with every file named there is one
      record per file, in input order. */
  lemma {:induction false} AllNamed(files: seq<UploadedFile>)
    requires forall i :: 0 <= i < |files| ==> files[i].name != []
    ensures |Records(files)| == |files|
    ensures forall i :: 0 <= i < |files| ==> Records(files)[i] == Record(files[i])
    decreases |files|
  {
    if files != [] {
      AllNamed(files[1..]);
      assert Records(files) == [Record(files[0])] + Records(files[1..]);
    }
  }

  /** A failed or empty extraction leaves the record's content "" and does not drop it. */
  lemma FailedExtraction(file: UploadedFile)
    requires file.name != [] && (file.extraction == ExtractionFailed || file.extraction == Extracted(None))
    ensures Records([file]) == [ProcessedDocument(file.name, DetectDocumentType(file.name),
                                  CategoryName(DetectCategory(file.name)), file.size, "")]
  {
    assert [file][1..] == [];
  }

  /** An empty upload is refused with 400 and nothing else is: any non-empty list of files,
      even one whose files are all nameless, is answered with its records. */
  lemma EmptyUploadRejected(files: seq<UploadedFile>)
    ensures UploadResult(files).Rejected? <==> files == []
    ensures files == [] ==> UploadResult(files) == Rejected(400, NoFiles)
    ensures files != [] ==> UploadResult(files).documents == Records(files)
  {
  }

  /** The message reports the number of records, which reads back from its leading
      digits. */
  lemma MessageCount(files: seq<UploadedFile>)
    requires files != []
    ensures UploadResult(files).Uploaded?
    ensures var r := UploadResult(files);
      exists k :: CountPrefix(r.message, k) && ParseDigits(r.message[..k]) == |r.documents|
  {
    var r := UploadResult(files);
    var digits := NatToString(|r.documents|);
    ParseNatToString(|r.documents|);
    assert r.message[..|digits|] == digits;
    assert CountPrefix(r.message, |digits|);
  }

  /** The first `k` characters of `message` are digits, and there is at least one. */
  predicate CountPrefix(message: string, k: int)
  {
    0 < k <= |message| && forall i :: 0 <= i < k ==> IsDigit(message[i])
  }
}
