/** The search configuration, as plain data: the models to search for, new
    or used stock, an optional cap on the number of results and an optional
    list of equipment names that every listed vehicle must have. */
module Config {
  import opened Prelude

  datatype Condition = New | Used

  datatype Configuration = Configuration(
    models: seq<string>,
    condition: Condition,
    limit: Option<u32>,
    filterEquipment: Option<seq<string>>)
}
