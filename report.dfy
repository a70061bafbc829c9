/** The downloadable analysis report: which lines the PDF holds and what the route answers. */
module Report {
  import opened Common
  import opened Upload
  import opened Records

  /** One entry of the PDF page: a line of text, or the lesion image read from a path. */
  datatype Entry = Line(text: string) | Image(path: string)

  /** The generated report: its entries in page order and the name it is saved and sent under. */
  datatype Pdf = Pdf(entries: seq<Entry>, outputName: string)

  /** The route's answer: the document, or the not-found message with status 404. */
  datatype Download = Sent(pdf: Pdf) | NotFound(message: string, status: nat)

  const Title: string := "Resultado del Análisis"
  const Placeholder: string := "Imagen no disponible"
  const NotFoundMessage: string := "No se encontró la historia médica."

  /** Where the report looks for the image: the upload folder joined with the stored path's base name. */
  function ImageLocation(h: History): (r: string)
    ensures UploadFolder <= r && '/' !in r[|UploadFolder|..]
    ensures r == UploadFolder + Basename(h.imagePath)
  {
    Join(UploadFolder, Basename(h.imagePath))
  }

  /** The report for one record: title, patient, date and predicted condition, then the image when its
      file exists and the placeholder line otherwise. */
  function Render(h: History, files: set<string>): (pdf: Pdf)
    ensures |pdf.entries| == 5
    ensures pdf.entries[..4] == [
      Line(Title),
      Line("Paciente: " + h.patientName),
      Line("Fecha: " + h.date),
      Line("Condición Predicha: " + h.condition)]
    ensures pdf.entries[4] == Image(ImageLocation(h)) <==> ImageLocation(h) in files
    ensures pdf.entries[4] == Line(Placeholder) <==> ImageLocation(h) !in files
    ensures pdf.outputName == "Resultado_Analisis_" + h.patientName + ".pdf"
  {
    var last := if ImageLocation(h) in files then Image(ImageLocation(h)) else Line(Placeholder);
    Pdf([Line(Title),
         Line("Paciente: " + h.patientName),
         Line("Fecha: " + h.date),
         Line("Condición Predicha: " + h.condition),
         last],
        "Resultado_Analisis_" + h.patientName + ".pdf")
  }

  /** The `download_analysis_pdf` route: an unknown id answers 404 with no document; in this model a known
      id always yields the record's report, whether or not its image is still on disk (rendering itself
      never fails here). */
  function DownloadReport(hs: seq<History>, files: set<string>, id: nat): (d: Download)
    ensures d.NotFound? <==> forall h :: h in hs ==> h.id != id
    ensures d.NotFound? ==> d.status == 404
    ensures d.Sent? ==> exists h :: h in hs && h.id == id && d.pdf == Render(h, files)
  {
    match Lookup(hs, id)
    case None => NotFound(NotFoundMessage, 404)
    case Some(h) => Sent(Render(h, files))
  }

  /** In a table in rowid order the report for a row's id is that row's report. */
  lemma DownloadFindsRow(hs: seq<History>, files: set<string>, h: History)
    requires Ascending(hs) && h in hs
    ensures DownloadReport(hs, files, h.id) == Sent(Render(h, files))
  {
    LookupFindsRow(hs, h);
  }
}
