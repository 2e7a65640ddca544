/**
 * The data table's configuration and the paging of `render_data_table`: the
 * page size is capped at 100 rows, the number of pages follows the shared
 * page arithmetic, and with a single page the page picker is skipped and page
 * 1 is shown. The row type is left abstract.
 */
module Tables {
  import opened Base
  import Pagination

  const DEFAULT_PAGE_SIZE: int := 25
  const MAX_PAGE_SIZE: int := 100

  /** `TableConfig` */
  datatype TableConfig = TableConfig(
    pageSize: int,
    sortable: bool,
    filterable: bool,
    resizable: bool,
    selectionMode: Option<string>)

  /** `TableConfig(page_size, ...)`: the requested page size, capped at `MAX_PAGE_SIZE`. */
  function NewTableConfig(pageSize: int, sortable: bool, filterable: bool, resizable: bool, selectionMode: Option<string>): (c: TableConfig)
    ensures c.pageSize <= MAX_PAGE_SIZE
    ensures c.pageSize <= pageSize
    ensures c.pageSize == pageSize || c.pageSize == MAX_PAGE_SIZE
    ensures (c.sortable, c.filterable, c.resizable, c.selectionMode) == (sortable, filterable, resizable, selectionMode)
  {
    TableConfig(if pageSize <= MAX_PAGE_SIZE then pageSize else MAX_PAGE_SIZE, sortable, filterable, resizable, selectionMode)
  }

  /** `TableConfig()` with every argument defaulted. */
  function DefaultConfig(): (c: TableConfig)
    ensures c.pageSize == DEFAULT_PAGE_SIZE && c.sortable && c.filterable && c.resizable && c.selectionMode.None?
  {
    NewTableConfig(DEFAULT_PAGE_SIZE, true, true, true, None)
  }

  /** What one render shows: the page number, the number of pages and the rows of that page. */
  datatype View<T> = View(page: int, totalPages: int, rows: seq<T>)

  /**
   * The paging part of `render_data_table` on the rows left after the search:
   * `chosen` is the page picker's value, which is asked for only when there is
   * more than one page and which the picker keeps between 1 and the last page.
   */
  function PageView<T>(rows: seq<T>, config: TableConfig, chosen: int): (v: View<T>)
    requires config.pageSize >= 1
    requires Pagination.TotalPages(|rows|, config.pageSize) > 1 ==> 1 <= chosen <= Pagination.TotalPages(|rows|, config.pageSize)
    ensures 1 <= v.page <= v.totalPages
    ensures v.totalPages == 1 ==> v.page == 1
    ensures v.totalPages > 1 ==> v.page == chosen
    ensures |v.rows| <= config.pageSize
    ensures v.rows == rows[Pagination.Min((v.page - 1) * config.pageSize, |rows|)..Pagination.Min(v.page * config.pageSize, |rows|)]
  {
    var total := Pagination.TotalPages(|rows|, config.pageSize);
    if total > 1 then
      Pagination.PageRowsSpec(rows, config.pageSize, chosen);
      View(chosen, total, Pagination.PageRows(rows, config.pageSize, chosen))
    else
      Pagination.PageRowsSpec(rows, config.pageSize, 1);
      View(1, total, Pagination.PageRows(rows, config.pageSize, 1))
  }

  /** The page count is ceil(n / page size) for a non-empty table, and 1 for an empty one. */
  lemma TotalPagesIsCeiling<T>(rows: seq<T>, config: TableConfig, chosen: int)
    requires config.pageSize >= 1
    requires Pagination.TotalPages(|rows|, config.pageSize) > 1 ==> 1 <= chosen <= Pagination.TotalPages(|rows|, config.pageSize)
    ensures |rows| == 0 ==> PageView(rows, config, chosen).totalPages == 1
    ensures |rows| >= 1 ==> (PageView(rows, config, chosen).totalPages - 1) * config.pageSize < |rows|
    ensures |rows| >= 1 ==> |rows| <= PageView(rows, config, chosen).totalPages * config.pageSize
  {
  }

  /** With a single page, that page shows every row; with several, every page shown has rows. */
  lemma ShownPageContents<T>(rows: seq<T>, config: TableConfig, chosen: int)
    requires config.pageSize >= 1
    requires Pagination.TotalPages(|rows|, config.pageSize) > 1 ==> 1 <= chosen <= Pagination.TotalPages(|rows|, config.pageSize)
    ensures PageView(rows, config, chosen).totalPages == 1 ==> PageView(rows, config, chosen).rows == rows
    ensures |rows| >= 1 ==> |PageView(rows, config, chosen).rows| >= 1
  {
    var v := PageView(rows, config, chosen);
    if v.totalPages == 1 {
      assert |rows| <= config.pageSize;
      assert rows[0..|rows|] == rows;
    }
    if |rows| >= 1 {
      Pagination.PagesNonEmpty(rows, config.pageSize, v.page);
    }
  }
}
