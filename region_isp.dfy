/** Code-to-name lookups over the constant parallel tables of regions and
    carriers (src/utils/region_isp.rs). */
module RegionIsp {
  import opened Sorting

  const RegionCodeList: seq<string> := [
    "china", "global", "oversea", "shandong", "jiangsu", "zhejiang", "anhui",
    "shanghai", "fujian", "jiangxi", "guangdong", "guangxi", "hainan", "henan",
    "hunan", "hubei", "beijing", "tianjin", "hebei", "shanxi", "neimenggu",
    "ningxia", "qinghai", "gansu", "shaanxi", "sichuan", "guizhou", "xinjiang",
    "yunnan", "chongqing", "xizang", "liaoning", "jilin", "heilongjiang",
    "hongkong", "macau", "taiwan", "unknown"
  ]

  const RegionNameList: seq<string> := [
    "中国", "全球", "海外", "山东", "江苏", "浙江", "安徽",
    "上海", "福建", "江西", "广东", "广西", "海南", "河南",
    "湖南", "湖北", "北京", "天津", "河北", "山西", "内蒙古",
    "宁夏", "青海", "甘肃", "陕西", "四川", "贵州", "新疆",
    "云南", "重庆", "西藏", "辽宁", "吉林", "黑龙江",
    "香港", "澳门", "台湾", "未知地区"
  ]

  const IspCodes: seq<string> := [
    "all", "telecom", "unicom", "mobile", "drpeng", "tietong", "cernet", "others"
  ]

  const IspNames: seq<string> := [
    "全部", "电信", "联通", "移动", "鹏博士", "铁通", "教育网", "其他"
  ]

  const UnknownRegion: string := "未知地区"
  const OtherIsp: string := "其他"

  /** Linear search of `codes` for `code`, answering the name at the same
      position, or `fallback` when the code is not listed. */
  function LookupName(codes: seq<string>, names: seq<string>, code: string, fallback: string): (name: string)
    requires |codes| == |names|
    ensures (exists i :: 0 <= i < |codes| && codes[i] == code) ==>
      exists i :: 0 <= i < |codes| && codes[i] == code && name == names[i] &&
        forall j :: 0 <= j < i ==> codes[j] != code
    ensures (forall i :: 0 <= i < |codes| ==> codes[i] != code) ==> name == fallback
    decreases |codes|
  {
    if |codes| == 0 then fallback
    else if codes[0] == code then names[0]
    else
      var rest := LookupName(codes[1..], names[1..], code, fallback);
      assert forall i :: 1 <= i < |codes| ==> codes[1..][i - 1] == codes[i];
      rest
  }

  /** With codes listed once each, a listed code answers its own name. */
  lemma LookupAtIndex(codes: seq<string>, names: seq<string>, code: string, fallback: string, i: nat)
    requires |codes| == |names| && Distinct(codes)
    requires i < |codes| && codes[i] == code
    ensures LookupName(codes, names, code, fallback) == names[i]
  {
  }

  /** `get_region_name_from_code`: region codes are listed once each, so a
      listed code answers the name at its own position, and any other code
      "未知地区" (unknown region). */
  function RegionName(code: string): (name: string)
    ensures forall i :: 0 <= i < |RegionCodeList| && RegionCodeList[i] == code ==> name == RegionNameList[i]
    ensures code !in RegionCodeList ==> name == UnknownRegion
  {
    TablesParallel();
    forall i | 0 <= i < |RegionCodeList| && RegionCodeList[i] == code
      ensures LookupName(RegionCodeList, RegionNameList, code, UnknownRegion) == RegionNameList[i]
    {
      LookupAtIndex(RegionCodeList, RegionNameList, code, UnknownRegion, i);
    }
    LookupName(RegionCodeList, RegionNameList, code, UnknownRegion)
  }

  /** `get_isp_name_from_code`: carrier codes are listed once each, so a
      listed code answers the name at its own position, and any other code
      "其他" (others). */
  function IspName(code: string): (name: string)
    ensures forall i :: 0 <= i < |IspCodes| && IspCodes[i] == code ==> name == IspNames[i]
    ensures code !in IspCodes ==> name == OtherIsp
  {
    TablesParallel();
    forall i | 0 <= i < |IspCodes| && IspCodes[i] == code
      ensures LookupName(IspCodes, IspNames, code, OtherIsp) == IspNames[i]
    {
      LookupAtIndex(IspCodes, IspNames, code, OtherIsp, i);
    }
    LookupName(IspCodes, IspNames, code, OtherIsp)
  }

  /** The tables are parallel: 38 region codes and names, 8 carrier codes
      and names, the codes of each table listed once. */
  lemma TablesParallel()
    ensures |RegionCodeList| == |RegionNameList| == 38
    ensures |IspCodes| == |IspNames| == 8
    ensures Distinct(RegionCodeList)
    ensures Distinct(IspCodes)
  {
    RegionCodesDistinct();
  }

  /** The region codes are listed once each, shown a block of rows at a
      time to keep each proof small. */
  lemma RegionCodesDistinct()
    ensures Distinct(RegionCodeList)
  {
    RegionCodesAfterRows0To3();
    RegionCodesAfterRows3To6();
    RegionCodesAfterRows6To10();
    RegionCodesAfterRows10To15();
    RegionCodesAfterRows15To20();
    RegionCodesAfterRows20To30();
    RegionCodesAfterRows30To38();
  }

  /** No code in rows 0 to 2 recurs later in the table. */
  lemma RegionCodesAfterRows0To3()
    ensures forall i, j :: 0 <= i < 3 && i < j < |RegionCodeList| ==> RegionCodeList[i] != RegionCodeList[j]
  {
  }

  /** No code in rows 3 to 5 recurs later in the table. */
  lemma RegionCodesAfterRows3To6()
    ensures forall i, j :: 3 <= i < 6 && i < j < |RegionCodeList| ==> RegionCodeList[i] != RegionCodeList[j]
  {
  }

  /** No code in rows 6 to 9 recurs later in the table. */
  lemma RegionCodesAfterRows6To10()
    ensures forall i, j :: 6 <= i < 10 && i < j < |RegionCodeList| ==> RegionCodeList[i] != RegionCodeList[j]
  {
  }

  /** No code in rows 10 to 14 recurs later in the table. */
  lemma RegionCodesAfterRows10To15()
    ensures forall i, j :: 10 <= i < 15 && i < j < |RegionCodeList| ==> RegionCodeList[i] != RegionCodeList[j]
  {
  }

  /** No code in rows 15 to 19 recurs later in the table. */
  lemma RegionCodesAfterRows15To20()
    ensures forall i, j :: 15 <= i < 20 && i < j < |RegionCodeList| ==> RegionCodeList[i] != RegionCodeList[j]
  {
  }

  /** No code in rows 20 to 29 recurs later in the table. */
  lemma RegionCodesAfterRows20To30()
    ensures forall i, j :: 20 <= i < 30 && i < j < |RegionCodeList| ==> RegionCodeList[i] != RegionCodeList[j]
  {
  }

  /** No code in rows 30 to 37 recurs later in the table. */
  lemma RegionCodesAfterRows30To38()
    ensures forall i, j :: 30 <= i < 38 && i < j < |RegionCodeList| ==> RegionCodeList[i] != RegionCodeList[j]
  {
  }
}
