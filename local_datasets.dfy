/**
 * The list of datasets already held by the portal: the category filter, the
 * empty-state message and the download link. Creating the anchor element,
 * clicking it and the toasts are outside the model.
 */
module LocalDatasetManager {
  import opened JsValues
  import opened JsArray
  import opened AdminDatasetUpload

  /** The selector value that shows every dataset. */
  const AllCategories: string := "all"

  const DownloadPrefix: string := "/api/download/"

  /** `dataset => dataset.category === selectedCategory`. */
  function InCategory(selected: string): Dataset -> bool
  {
    (d: Dataset) => d.category == selected
  }

  /**
   * `filteredDatasets`: every dataset for "all", otherwise exactly the
   * datasets of the selected category, in list order.
   */
  function FilteredDatasets(datasets: seq<Dataset>, selected: string): (r: seq<Dataset>)
    ensures selected == AllCategories ==> r == datasets
    ensures selected != AllCategories ==> forall i :: 0 <= i < |r| ==> r[i] in datasets && r[i].category == selected
    ensures selected != AllCategories ==>
      forall i :: 0 <= i < |datasets| && datasets[i].category == selected ==> datasets[i] in r
  {
    if selected == AllCategories then datasets else Filter(InCategory(selected), datasets)
  }

  /** Filtering the filtered list again changes nothing, and the result keeps the list order. */
  lemma FilterStable(datasets: seq<Dataset>, selected: string)
    ensures FilteredDatasets(FilteredDatasets(datasets, selected), selected) == FilteredDatasets(datasets, selected)
    ensures IsSubsequence(FilteredDatasets(datasets, selected), datasets)
  {
    if selected != AllCategories {
      FilterIdempotent(InCategory(selected), datasets);
      FilterSubsequence(InCategory(selected), datasets);
    } else {
      SubsequenceOfItself(datasets);
    }
  }

  lemma {:induction false} SubsequenceOfItself(s: seq<Dataset>)
    ensures IsSubsequence(s, s)
  {
    if |s| > 0 {
      SubsequenceOfItself(s[1..]);
    }
  }

  /** The filter distributes over a list split in two: adding datasets never reorders the view. */
  lemma FilterAppend(a: seq<Dataset>, b: seq<Dataset>, selected: string)
    ensures FilteredDatasets(a + b, selected) == FilteredDatasets(a, selected) + FilteredDatasets(b, selected)
  {
    if selected != AllCategories {
      FilterConcat(InCategory(selected), a, b);
    }
  }

  /**
   * "Nenhum dataset encontrado para esta categoria." is shown exactly when
   * the filtered list is empty: for "all" when there is no dataset, otherwise
   * when no dataset has the selected category.
   */
  function ShowsEmptyState(datasets: seq<Dataset>, selected: string): (r: bool)
    ensures selected == AllCategories ==> (r <==> |datasets| == 0)
    ensures selected != AllCategories ==>
      (r <==> forall i :: 0 <= i < |datasets| ==> datasets[i].category != selected)
  {
    |FilteredDatasets(datasets, selected)| == 0
  }

  /** What pressing "Baixar" does: an error toast, or a link to the stored file. */
  datatype DownloadAction = Unavailable | Link(href: string, downloadName: string)

  /**
   * `handleDownload`: refused when the dataset has no stored file name (absent
   * or empty); otherwise the link points at `/api/download/<filename>` and
   * saves under the dataset's name.
   */
  function HandleDownload(d: Dataset): (r: DownloadAction)
    ensures r.Unavailable? <==> d.filename.None? || d.filename.value == ""
    ensures r.Link? ==> r.downloadName == d.name
    ensures r.Link? ==> |r.href| > |DownloadPrefix| && r.href[..|DownloadPrefix|] == DownloadPrefix
    ensures r.Link? ==> r.href[|DownloadPrefix|..] == d.filename.value
  {
    if d.filename.None? || d.filename.value == "" then Unavailable
    else Link(DownloadPrefix + d.filename.value, d.name)
  }

  /**
   * A dataset the upload form created from a reply naming a stored file can
   * be downloaded, and its link names that file.
   */
  lemma UploadedIsDownloadable(file: Option<string>, category: string, description: string,
                               answer: ServerAnswer, now: nat, iso: string, sizeLabel: string)
    requires HandleUpload(file, category, description, answer, now, iso, sizeLabel).Uploaded?
    requires answer.reply.filename.Some? && answer.reply.filename.value != ""
    ensures var d := HandleUpload(file, category, description, answer, now, iso, sizeLabel).dataset;
      HandleDownload(d) == Link(DownloadPrefix + answer.reply.filename.value, answer.reply.originalname)
  {
  }
}
