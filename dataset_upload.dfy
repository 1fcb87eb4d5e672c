/**
 * The administrator's dataset upload form: the order in which `handleUpload`
 * checks the form, the decision taken on the server's answer, and the
 * dataset record built from that answer. The multipart POST, the clock and
 * the byte count are outside the model: the server's answer, `Date.now()`,
 * the ISO timestamp and the formatted size label are parameters.
 */
module AdminDatasetUpload {
  import opened JsValues
  import opened JsText
  import opened JsArray

  /** A dataset as the data-management page lists it. */
  datatype Dataset = Dataset(
    id: string, name: string, category: string, size: string, uploadDate: string,
    format: string, description: string, filename: Option<string>)

  /** An entry of the category selector; `caption` is the text shown (`label` in the form). */
  datatype CategoryOption = CategoryOption(value: string, caption: string)

  /** The fields of the upload endpoint's JSON body the form reads. */
  datatype UploadReply = UploadReply(originalname: string, filename: Option<string>)

  /**
   * What the POST to `/api/upload` gives back: an exception (from `fetch` or
   * `response.json()`), a response whose `ok` is false, or a decoded body.
   */
  datatype ServerAnswer = Unreachable | NotOk | Reply(reply: UploadReply)

  /** How one press of the upload button ends: an error toast or a new dataset. */
  datatype UploadOutcome = Refused(message: string) | Uploaded(dataset: Dataset)

  const NoFileMessage: string := "Selecione um arquivo para upload."
  const NoCategoryMessage: string := "Selecione uma categoria para o dataset."
  const NoDescriptionMessage: string := "Adicione uma descrição para o dataset."
  const ServerFailedMessage: string := "Falha ao realizar upload no servidor."
  const UnexpectedMessage: string := "Erro inesperado ao enviar arquivo."
  const FallbackFormat: string := "Arquivo"

  /**
   * `originalname.split(".").pop()?.toUpperCase() || "Arquivo"`: the text
   * after the last dot, upper-cased; the whole name when there is no dot;
   * "Arquivo" when that text is empty.
   */
  function UploadFormat(originalname: string): (r: string)
    ensures r != ""
    ensures '.' in originalname ==>
      var ext := originalname[LastIndexOf(originalname, '.') + 1..];
      r == if ext == "" then FallbackFormat else ToUpper(ext)
    ensures '.' !in originalname ==>
      r == if originalname == "" then FallbackFormat else ToUpper(originalname)
  {
    SplitLast(originalname, '.');
    var ext := ToUpper(Last(Split(originalname, '.')));
    if ext == "" then FallbackFormat else ext
  }

  /** Only the last extension decides the format: `a.b.csv` and `x.csv` are both "CSV". */
  lemma FormatOfLastExtension(stem: string, ext: string)
    requires '.' !in ext
    ensures UploadFormat(stem + ['.'] + ext) == if ext == "" then FallbackFormat else ToUpper(ext)
  {
    var name := stem + ['.'] + ext;
    assert name[|stem|] == '.';
    assert name[|stem| + 1..] == ext;
    LastIndexOfUnique(name, '.', |stem|);
  }

  /** `new Date().toISOString().split("T")[0]`: the date part of the timestamp. */
  function UploadDate(iso: string): (r: string)
    ensures |r| <= |iso| && iso[..|r|] == r
    ensures 'T' !in r
    ensures |r| < |iso| <==> 'T' in iso
    ensures |r| < |iso| ==> iso[|r|] == 'T'
  {
    SplitFirst(iso, 'T');
    Split(iso, 'T')[0]
  }

  /** The record handed to `onDatasetAdded` once the server has accepted the file. */
  function NewDataset(now: nat, reply: UploadReply, category: string, description: string,
                      sizeLabel: string, iso: string): (d: Dataset)
    ensures d.id == DecimalString(now)
    ensures d.name == reply.originalname && d.filename == reply.filename
    ensures d.category == category && d.description == description && d.size == sizeLabel
    ensures d.uploadDate == UploadDate(iso) && d.format == UploadFormat(reply.originalname)
  {
    Dataset(DecimalString(now), reply.originalname, category, sizeLabel, UploadDate(iso),
            UploadFormat(reply.originalname), description, reply.filename)
  }

  /**
   * `handleUpload`: the file, then the category, then the trimmed description
   * are checked in that order and the first missing one is reported; only a
   * complete form is sent, and only a successful answer yields a dataset.
   */
  function HandleUpload(file: Option<string>, category: string, description: string,
                        answer: ServerAnswer, now: nat, iso: string, sizeLabel: string): (r: UploadOutcome)
    ensures file.None? ==> r == Refused(NoFileMessage)
    ensures file.Some? && category == "" ==> r == Refused(NoCategoryMessage)
    ensures file.Some? && category != "" && Trim(description) == "" ==> r == Refused(NoDescriptionMessage)
    ensures r.Uploaded? <==> file.Some? && category != "" && Trim(description) != "" && answer.Reply?
    ensures r.Uploaded? ==>
      r.dataset == NewDataset(now, answer.reply, category, description, sizeLabel, iso)
    ensures r.Uploaded? ==> Trim(r.dataset.description) != "" && r.dataset.category != ""
    ensures file.Some? && category != "" && Trim(description) != "" && answer.NotOk? ==>
      r == Refused(ServerFailedMessage)
    ensures file.Some? && category != "" && Trim(description) != "" && answer.Unreachable? ==>
      r == Refused(UnexpectedMessage)
  {
    if file.None? then Refused(NoFileMessage)
    else if category == "" then Refused(NoCategoryMessage)
    else if Trim(description) == "" then Refused(NoDescriptionMessage)
    else
      match answer
      case Unreachable => Refused(UnexpectedMessage)
      case NotOk => Refused(ServerFailedMessage)
      case Reply(reply) => Uploaded(NewDataset(now, reply, category, description, sizeLabel, iso))
  }

  predicate IsSelectable(c: CategoryOption)
  {
    c.value != "all"
  }

  /** `categories.filter(cat => cat.value !== 'all')`: the choices offered for a new dataset. */
  function CategoryChoices(categories: seq<CategoryOption>): (r: seq<CategoryOption>)
    ensures forall i :: 0 <= i < |r| ==> r[i] in categories && r[i].value != "all"
    ensures forall i :: 0 <= i < |categories| && categories[i].value != "all" ==> categories[i] in r
  {
    Filter(IsSelectable, categories)
  }

  /** The choices keep the order of the category list. */
  lemma CategoryChoicesOrder(categories: seq<CategoryOption>)
    ensures IsSubsequence(CategoryChoices(categories), categories)
    ensures forall a, b :: CategoryChoices(a + b) == CategoryChoices(a) + CategoryChoices(b)
  {
    FilterSubsequence(IsSelectable, categories);
    forall a, b ensures CategoryChoices(a + b) == CategoryChoices(a) + CategoryChoices(b) {
      FilterConcat(IsSelectable, a, b);
    }
  }
}
