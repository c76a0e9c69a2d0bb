/** The pure decision rules of the adapter: list title to status, the spent-time
    clamp, and the two first-match searches that yield a card's completed flag. */
module AdapterRules {
  import opened Common
  import opened Responses
  import opened Api
  import opened Database

  /** `LIST_NAMES_TO_STATUS`: the fixed list-title table. */
  const ListNamesToStatus: map<string, Status> := map[
    "новые" := New,
    "в работе" := InProgress,
    "можно проверять" := Review,
    "выполнено" := Completed,
    "архив" := Archive
  ]

  /** `LIST_NAMES_TO_STATUS.get(title, StatusEnum.UNKNOWN)`. */
  function StatusOf(title: string): (s: Status)
    ensures s == Unknown <==> title !in ListNamesToStatus
  {
    if title in ListNamesToStatus then ListNamesToStatus[title] else Unknown
  }

  /** The lookup is an exact, case-sensitive match of the five titles; each status
      comes from exactly one title, and every other title is `Unknown`. */
  lemma StatusTable(title: string)
    ensures StatusOf(title) == New <==> title == "новые"
    ensures StatusOf(title) == InProgress <==> title == "в работе"
    ensures StatusOf(title) == Review <==> title == "можно проверять"
    ensures StatusOf(title) == Completed <==> title == "выполнено"
    ensures StatusOf(title) == Archive <==> title == "архив"
    ensures StatusOf(title) == Unknown <==> title !in ListNamesToStatus
  {
  }

  /** `sys.maxsize` of a 64-bit CPython. */
  const MaxSize: int := 0x7FFF_FFFF_FFFF_FFFF

  /** Logged hours: the spent time when present and below `sys.maxsize`, else 0. */
  function Hours(spentTime: Option<int>): (h: int)
    ensures h < MaxSize
    ensures spentTime.Some? && spentTime.value < MaxSize ==> h == spentTime.value
    ensures spentTime.None? || spentTime.value >= MaxSize ==> h == 0
  {
    if spentTime.Some? && spentTime.value < MaxSize then spentTime.value else 0
  }

  /** The name of the board custom field that holds the completed flag. */
  const CompleteFieldName: string := "Выполнено"

  /** `get_complete_field_id`: the id of the first board custom field named exactly
      "Выполнено", `None` when there is none; a failed fetch propagates. */
  function GetCompleteFieldId(remote: Remote, boardId: string): (r: Fetch<Option<string>>)
    ensures remote.customFields(boardId).RouteError? ==> r == RouteError(remote.customFields(boardId).status)
    ensures remote.customFields(boardId).Ok? ==>
      var fields := remote.customFields(boardId).value;
      && r.Ok?
      && (r.value.None? <==> forall j :: 0 <= j < |fields| ==> fields[j].name != CompleteFieldName)
      && (r.value.Some? ==> exists i :: 0 <= i < |fields| && fields[i].name == CompleteFieldName
                             && r.value.value == fields[i].id
                             && forall j :: 0 <= j < i ==> fields[j].name != CompleteFieldName)
  {
    match remote.customFields(boardId)
    case RouteError(s) => RouteError(s)
    case Ok(fields) =>
      var i := FirstIndex(fields, (f: InlineCustomField) => f.name == CompleteFieldName);
      Ok(if i < |fields| then Some(fields[i].id) else None)
  }

  /** `get_card_complete_status`: the truthiness of the first custom-field value whose
      id is the complete-field id; false when none matches or there is no such field. */
  function CardCompleteStatus(completeFieldId: Option<string>, values: seq<CustomFieldValue>): (b: bool)
    ensures b <==> exists i :: 0 <= i < |values| && Some(values[i].id) == completeFieldId
                              && Truthy(values[i].value)
                              && forall j :: 0 <= j < i ==> Some(values[j].id) != completeFieldId
  {
    var i := FirstIndex(values, (v: CustomFieldValue) => Some(v.id) == completeFieldId);
    i < |values| && Truthy(values[i].value)
  }
}
