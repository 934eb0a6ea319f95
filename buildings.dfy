/**
 * Building labels and the graduate/undergraduate classification of rooms in
 * the late-return report (get_excel_data_curr/gen_excel_data_v1.py).
 *
 * Buildings are numbered 1..20 in the gate system; numbers 11..20 are shown
 * with the campus's own names (11A, 11B, 12A, ...).  A room is written
 * `<label>-<room>`, and whether its resident is a graduate student follows
 * from the label before the first `-`, except for a fixed list of
 * undergraduate rooms in building 4.
 */
module Buildings {
  import opened Wrappers
  import opened Strings
  import opened Seqs

  /** The campus names of buildings 11..20, in order. */
  const RenamedLabels: seq<string> := ["11A", "11B", "12A", "12B", "13", "14", "15", "16", "17A", "17B"]

  /** `convert_building_show(bid)`. */
  function BuildingLabel(bid: int): (s: string)
    ensures 11 <= bid <= 20 ==> s == RenamedLabels[bid - 11]
    ensures !(11 <= bid <= 20) ==> s == IntToString(bid)
  {
    if bid == 11 then "11A"
    else if bid == 12 then "11B"
    else if bid == 13 then "12A"
    else if bid == 14 then "12B"
    else if bid == 15 then "13"
    else if bid == 16 then "14"
    else if bid == 17 then "15"
    else if bid == 18 then "16"
    else if bid == 19 then "17A"
    else if bid == 20 then "17B"
    else IntToString(bid)
  }

  /** `'{}-{}'.format(convert_building_show(bid), room)`. */
  function RoomLabel(bid: int, room: string): string
  {
    BuildingLabel(bid) + "-" + room
  }

  lemma IntToStringInjective(a: int, b: int)
    requires IntToString(a) == IntToString(b)
    ensures a == b
  {
    PyIntOfIntToString(a);
    PyIntOfIntToString(b);
  }

  /** After its first character, `str(i)` is all digits. */
  lemma IntToStringDigitAt(i: int, k: int)
    requires 0 < k < |IntToString(i)|
    ensures IsDigit(IntToString(i)[k])
  {
    if i < 0 {
      var d := NatToString(-i);
      assert IntToString(i) == "-" + d;
      assert IntToString(i)[k] == d[k - 1];
    }
  }

  /** The renamed labels that are plain numbers are those of buildings 15..18. */
  lemma RenamedLabelAsNumber(bid: int, i: int)
    requires 11 <= bid <= 20
    requires BuildingLabel(bid) == IntToString(i)
    ensures 15 <= bid <= 18 && i == bid - 2
  {
    if 15 <= bid <= 18 {
      assert IntToString(bid - 2) == BuildingLabel(bid);
      IntToStringInjective(i, bid - 2);
    } else {
      IntToStringDigitAt(i, 2);
      assert false;
    }
  }

  /** Different buildings never share a label, so a room label names one building. */
  lemma BuildingLabelInjective(a: int, b: int)
    requires BuildingLabel(a) == BuildingLabel(b)
    ensures a == b
  {
    var inA := 11 <= a <= 20;
    var inB := 11 <= b <= 20;
    if inA && inB {
      assert RenamedLabels[a - 11] == RenamedLabels[b - 11];
    } else if inA {
      RenamedLabelAsNumber(a, b);
    } else if inB {
      RenamedLabelAsNumber(b, a);
    } else {
      IntToStringInjective(a, b);
    }
  }

  /** The label of a non-negative building number holds no `-`. */
  lemma BuildingLabelHasNoDash(bid: int)
    requires bid >= 0
    ensures '-' !in BuildingLabel(bid)
  {
    var s := BuildingLabel(bid);
    if !(11 <= bid <= 20) {
      assert forall k :: 0 <= k < |s| ==> IsDigit(s[k]);
    }
  }

  // ------------------------------------------------------------ classification

  const Undergraduate := "本科"
  const Graduate := "研究生"

  /**
   * The room numbers of the 45 rooms of building 4 that house undergraduates:
   * 18 on the first floor, then 27 on the second.
   */
  const UndergradRoomNumbers4: seq<string> := [
    "101", "103", "105", "107", "109", "111", "113", "115", "117",
    "121", "123", "125", "127", "129", "137", "139", "141", "143",
    "201", "202", "203", "204", "205", "206", "207", "208", "209", "210",
    "211", "212", "213", "214", "215", "216", "217", "218", "219", "220",
    "221", "222", "223", "224", "225", "227", "228"
  ]

  /**
   * `room in undergraduate_rooms_building4`, where that list holds "4-101" ..
   * "4-228": the room is `4-` followed by one of the listed numbers.
   */
  predicate IsUndergradRoom4(room: string) {
    |room| >= 2 && room[..2] == "4-" && Has(UndergradRoomNumbers4, room[2..])
  }

  /** The building labels whose residents are graduate students. */
  const GraduateBuildings: set<string> := {"4", "5", "7", "11A", "11B"}

  /** `room.split('-')[0] if '-' in room else ''`. */
  function BuildingPart(room: string): (b: string)
    ensures '-' !in room ==> b == []
    ensures '-' in room ==> b < room && '-' !in b && room[|b|] == '-'
  {
    if '-' in room then BeforeFirst(room, '-') else []
  }

  /** The 培养层次 (level of study) column of a room. */
  function Classify(room: string): (level: string)
    ensures level == Graduate || level == Undergraduate
    ensures level == Graduate <==> !IsUndergradRoom4(room) && BuildingPart(room) in GraduateBuildings
  {
    if IsUndergradRoom4(room) then Undergraduate
    else if BuildingPart(room) in GraduateBuildings then Graduate
    else Undergraduate
  }

  /** Splitting a relabelled room at its first `-` gives back the building label. */
  lemma BuildingPartOfRoomLabel(bid: int, room: string)
    requires bid >= 0
    ensures BuildingPart(RoomLabel(bid, room)) == BuildingLabel(bid)
  {
    var l := BuildingLabel(bid);
    var s := RoomLabel(bid, room);
    BuildingLabelHasNoDash(bid);
    assert s[|l|] == '-';
    assert '-' in s;
    var b := BeforeFirst(s, '-');
    assert |b| == |l|;
    assert b == s[..|l|] == l;
  }

  /**
   * In terms of building numbers: rooms of buildings 4, 5, 7, 11 (11A) and
   * 12 (11B) are graduate rooms, apart from the listed rooms of building 4;
   * every other room is undergraduate.
   */
  lemma ClassifyByBuilding(bid: int, room: string)
    requires bid >= 0
    ensures Classify(RoomLabel(bid, room)) ==
      (if (bid == 4 || bid == 5 || bid == 7 || bid == 11 || bid == 12) && !IsUndergradRoom4(RoomLabel(bid, room))
       then Graduate else Undergraduate)
  {
    var s := RoomLabel(bid, room);
    BuildingPartOfRoomLabel(bid, room);
    var l := BuildingLabel(bid);
    if l in GraduateBuildings {
      if l == "4" { assert l == BuildingLabel(4); BuildingLabelInjective(bid, 4); }
      else if l == "5" { assert l == BuildingLabel(5); BuildingLabelInjective(bid, 5); }
      else if l == "7" { assert l == BuildingLabel(7); BuildingLabelInjective(bid, 7); }
      else if l == "11A" { assert l == BuildingLabel(11); BuildingLabelInjective(bid, 11); }
      else { assert l == BuildingLabel(12); BuildingLabelInjective(bid, 12); }
    } else {
      assert bid != 4 && bid != 5 && bid != 7 && bid != 11 && bid != 12;
    }
  }

  /**
   * Only building 4 has undergraduate exceptions: a relabelled room that is in
   * the list belongs to building 4, so rooms of 5, 7, 11A and 11B are all graduate.
   */
  lemma UndergradRoomIsInBuilding4(bid: int, room: string)
    requires bid >= 0 && IsUndergradRoom4(RoomLabel(bid, room))
    ensures bid == 4
  {
    var s := RoomLabel(bid, room);
    BuildingPartOfRoomLabel(bid, room);
    var b := BuildingPart(s);
    assert s[0] == '4' && s[1] == '-';
    assert |b| == 1;
    assert b == "4" == BuildingLabel(4) by { assert b[0] == s[0]; }
    BuildingLabelInjective(bid, 4);
  }
}
