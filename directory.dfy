/** The bracelet and worker tables that both controllers read and never
    write: `pulseras` (bracelet uuid and `estado`) and `trabajadores`. */
module Directory {
  import opened Common

  /** The `estado` value that lets a bracelet record marks and processes. */
  const ACTIVE: string := "activa"

  /** The `pulseras` table, keyed by its `uuid` column, giving each
      bracelet's `estado`. */
  type BraceletTable = map<string, string>

  /** A row of the `trabajadores` table; `bracelet` is its `pulsera_uuid`. */
  datatype Worker = Worker(
    id: nat,
    names: string,
    role: string,
    contact: string,
    address: string,
    bracelet: Option<string>)

  /** `SELECT ... FROM trabajadores WHERE pulsera_uuid = ?`, first row:
      the first worker in table order wearing the bracelet, if any. */
  function FindWorker(workers: seq<Worker>, uuid: string): (w: Option<Worker>)
    ensures w.Some? ==> w.value in workers && w.value.bracelet == Some(uuid)
    ensures w.None? <==> forall i :: 0 <= i < |workers| ==> workers[i].bracelet != Some(uuid)
    ensures w.Some? ==> exists i :: 0 <= i < |workers| && workers[i] == w.value
                                    && forall j :: 0 <= j < i ==> workers[j].bracelet != Some(uuid)
  {
    if workers == [] then None
    else if workers[0].bracelet == Some(uuid) then Some(workers[0])
    else
      var rest := FindWorker(workers[1..], uuid);
      assert forall i :: 1 <= i < |workers| ==> workers[i] == workers[1..][i - 1];
      if rest.None? then rest
      else
        var i :| 0 <= i < |workers[1..]| && workers[1..][i] == rest.value
                 && forall j :: 0 <= j < i ==> workers[1..][j].bracelet != Some(uuid);
        assert workers[i + 1] == rest.value;
        assert forall j :: 0 <= j < i + 1 ==> workers[j].bracelet != Some(uuid);
        rest
  }
}
