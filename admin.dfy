/** The admin panel (src/pages/Admin.jsx): the role gate and the export
    button, which fetches every feedback and hands it to the CSV export. */
module Admin {
  import opened Domain
  import CsvExport

  const AdminRole: string := "admin"
  const NoData: string := "No feedback data to export"
  const ExportFailed: string := "Failed to export data. Please try again."
  const DashboardPath: string := "/dashboard"

  /** How `getAllFeedbacks()` settles: the feedback with their comments, or a
      thrown error. */
  datatype FetchAll = Fetched(feedbacks: seq<Feedback>) | FetchFailed

  /** What a render of the page produces: for any role but `admin` a
      navigation to the dashboard and no content; the panel otherwise. */
  datatype Gate = RedirectToDashboard | Panel

  function GateFor(userRole: string): (g: Gate)
    ensures g.Panel? <==> userRole == AdminRole
  {
    if userRole != AdminRole then RedirectToDashboard else Panel
  }

  /** The panel's state: the `useState` cells, plus the navigations and the
      CSV contents handed to the browser for download so far. */
  class AdminPanel {
    var loading: bool
    var error: string
    var navigations: seq<string>
    var downloads: seq<string>

    constructor()
      ensures !loading && error == "" && navigations == [] && downloads == []
    {
      loading := false;
      error := "";
      navigations := [];
      downloads := [];
    }

    /** `disabled={loading}`. */
    predicate ExportDisabled()
      reads this
    {
      loading
    }

    /** A render: a role other than `admin` navigates to the dashboard. */
    method Render(userRole: string) returns (g: Gate)
      modifies this
      ensures g == GateFor(userRole)
      ensures navigations == old(navigations) + (if g.Panel? then [] else [DashboardPath])
      ensures loading == old(loading) && error == old(error) && downloads == old(downloads)
    {
      g := GateFor(userRole);
      if g.RedirectToDashboard? {
        navigations := navigations + [DashboardPath];
      }
    }

    /** The Back to Dashboard button. */
    method Back()
      modifies this
      ensures navigations == old(navigations) + [DashboardPath]
      ensures loading == old(loading) && error == old(error) && downloads == old(downloads)
    {
      navigations := navigations + [DashboardPath];
    }

    /** The first half of `handleExport`, up to the awaited fetch: the
        button is disabled and the error cleared. */
    method StartExport()
      requires !ExportDisabled()
      modifies this
      ensures ExportDisabled() && error == ""
      ensures navigations == old(navigations) && downloads == old(downloads)
    {
      loading := true;
      error := "";
    }

    /** The rest of `handleExport`: an empty result shows the no-data
        message, a failed fetch the retry message; otherwise the content
        built by `exportToCSV` is downloaded once. Loading ends in every
        case. */
    method FinishExport(fetch: FetchAll)
      requires ExportDisabled()
      modifies this
      ensures !ExportDisabled()
      ensures fetch.FetchFailed? ==> error == ExportFailed && downloads == old(downloads)
      ensures fetch.Fetched? && |fetch.feedbacks| == 0 ==> error == NoData && downloads == old(downloads)
      ensures fetch.Fetched? && |fetch.feedbacks| > 0 ==>
                error == old(error) && downloads == old(downloads) + [CsvExport.ExportContent(fetch.feedbacks)]
      ensures navigations == old(navigations)
    {
      match fetch {
        case FetchFailed =>
          error := ExportFailed;
          loading := false;
        case Fetched(feedbacks) =>
          if |feedbacks| == 0 {
            error := NoData;
            loading := false;
            return;
          }
          Download(feedbacks);
          loading := false;
      }
    }

    /** `exportToCSV(feedbacks)`: the content is built and offered for
        download. */
    method Download(feedbacks: seq<Feedback>)
      modifies this
      ensures downloads == old(downloads) + [CsvExport.ExportContent(feedbacks)]
      ensures loading == old(loading) && error == old(error) && navigations == old(navigations)
    {
      var csvContent := CsvExport.ExportToCsv(feedbacks);
      downloads := downloads + [csvContent];
    }

    /** `handleExport` from a click on the enabled button to its end. */
    method HandleExport(fetch: FetchAll)
      requires !ExportDisabled()
      modifies this
      ensures !ExportDisabled()
      ensures fetch.FetchFailed? ==> error == ExportFailed && downloads == old(downloads)
      ensures fetch.Fetched? && |fetch.feedbacks| == 0 ==> error == NoData && downloads == old(downloads)
      ensures fetch.Fetched? && |fetch.feedbacks| > 0 ==>
                error == "" && downloads == old(downloads) + [CsvExport.ExportContent(fetch.feedbacks)]
      ensures navigations == old(navigations)
    {
      StartExport();
      FinishExport(fetch);
    }
  }
}
